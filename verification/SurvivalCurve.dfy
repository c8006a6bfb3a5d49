/** Reading a curve back: the queries of survival.py, and what the steps add up to. */
module SurvivalCurve {
  import opened Wrappers
  import opened SurvivalSpec
  import opened SurvivalEstimator

  /** Between two steps the curve is flat. */
  lemma FlatAfterStep(steps: seq<Step>, obs: seq<Evidence>, k: nat, t: real)
    requires StepsFit(steps, obs) && k < |steps|
    requires steps[k].age <= t && (k + 1 < |steps| ==> t < steps[k + 1].age)
    ensures Survival(obs, t) == steps[k].survival
  {
    DeathsAreAtSteps(steps, obs, k, t);
    assert DeathAges(obs, t) == DeathAges(obs, steps[k].age);
    assert StepFits(steps[k], obs);
  }

  lemma DeathsAreAtSteps(steps: seq<Step>, obs: seq<Evidence>, k: nat, t: real)
    requires Increasing(steps) && DeathsHaveSteps(steps, obs, |obs|)
    requires k < |steps| && steps[k].age <= t && (k + 1 < |steps| ==> t < steps[k + 1].age)
    ensures forall i | 0 <= i < |obs| && obs[i].died && obs[i].age <= t :: obs[i].age <= steps[k].age
  {
    assert forall j | k < j < |steps| :: steps[k + 1].age <= steps[j].age;
    forall i | 0 <= i < |obs| && obs[i].died && obs[i].age <= t
      ensures obs[i].age <= steps[k].age
    {
      assert HasStep(steps, obs[i].age);
    }
  }

  lemma FullBeforeFirstStep(steps: seq<Step>, obs: seq<Evidence>, t: real)
    requires StepsFit(steps, obs) && (steps != [] ==> t < steps[0].age)
    ensures Survival(obs, t) == 1.0
  {
    forall i | 0 <= i < |obs| && obs[i].died
      ensures obs[i].age > t
    {
      assert HasStep(steps, obs[i].age);
    }
    assert DeathAges(obs, t) == {};
  }

  /** P(cache survives | age): the product over all death ages up to it, undefined exactly past the horizon. */
  method SurvivalAt(curve: Curve, age: real, ghost obs: seq<Evidence>) returns (estimate: Option<real>)
    requires Describes(curve, obs)
    ensures estimate.Some? <==> exists i | 0 <= i < |obs| :: age <= obs[i].age
    ensures estimate.Some? ==> estimate.value == Survival(obs, age)
  {
    if curve.sampleCount == 0 || curve.horizon == None {
      return None;
    }
    if age > curve.horizon.value {
      return None;
    }
    if curve.steps == [] || age < curve.steps[0].age {
      FullBeforeFirstStep(curve.steps, obs, age);
      return Some(1.0);
    }
    var value := curve.steps[0].survival;
    var k := 0;
    while k < |curve.steps| && curve.steps[k].age <= age
      invariant k <= |curve.steps|
      invariant k > 0 ==> curve.steps[k - 1].age <= age && value == curve.steps[k - 1].survival
      invariant k == 0 ==> value == curve.steps[0].survival
    {
      value := curve.steps[k].survival;
      k := k + 1;
    }
    FlatAfterStep(curve.steps, obs, k - 1, age);
    return Some(value);
  }

  /** The median: the least age at which the curve is at or below one half. */
  method MedianSurvival(curve: Curve, ghost obs: seq<Evidence>) returns (median: Option<real>)
    requires Describes(curve, obs)
    ensures median.Some? ==> Survival(obs, median.value) <= 0.5 && forall t | t < median.value :: Survival(obs, t) > 0.5
    ensures median.None? ==> forall t :: Survival(obs, t) > 0.5
  {
    var k := 0;
    while k < |curve.steps|
      invariant k <= |curve.steps|
      invariant forall j | 0 <= j < k :: curve.steps[j].survival > 0.5
    {
      if curve.steps[k].survival <= 0.5 {
        AboveHalfBefore(curve.steps, obs, k);
        return Some(curve.steps[k].age);
      }
      k := k + 1;
    }
    AboveHalfBefore(curve.steps, obs, k);
    return None;
  }

  lemma AboveHalfBefore(steps: seq<Step>, obs: seq<Evidence>, k: nat)
    requires StepsFit(steps, obs) && k <= |steps|
    requires forall j | 0 <= j < k :: steps[j].survival > 0.5
    ensures k < |steps| ==> Survival(obs, steps[k].age) == steps[k].survival
    ensures forall t | k < |steps| ==> t < steps[k].age :: Survival(obs, t) > 0.5
  {
    if k < |steps| {
      assert StepFits(steps[k], obs);
    }
    forall t | k < |steps| ==> t < steps[k].age
      ensures Survival(obs, t) > 0.5
    {
      if k == 0 || t < steps[0].age {
        FullBeforeFirstStep(steps, obs, t);
      } else {
        var j := LastStepUpTo(steps, t);
        FlatAfterStep(steps, obs, j, t);
      }
    }
  }

  lemma {:induction false} LastStepUpTo(steps: seq<Step>, t: real) returns (j: nat)
    requires Increasing(steps) && steps != [] && steps[0].age <= t
    ensures j < |steps| && steps[j].age <= t && (j + 1 < |steps| ==> t < steps[j + 1].age)
  {
    if steps[|steps| - 1].age <= t {
      j := |steps| - 1;
    } else {
      j := LastStepUpTo(steps[..|steps| - 1], t);
    }
  }

  function SumEvents(steps: seq<Step>): nat {
    if steps == [] then 0 else SumEvents(steps[..|steps| - 1]) + steps[|steps| - 1].events
  }

  /** The first k steps account for exactly the misses up to the age of the k-th. */
  lemma {:induction false} EventsUpToStep(steps: seq<Step>, obs: seq<Evidence>, k: nat)
    requires StepsFit(steps, obs) && k < |steps|
    ensures SumEvents(steps[..k + 1]) == Count(obs, DiedUpTo(steps[k].age))
  {
    assert steps[..k + 1][..k] == steps[..k];
    assert StepFits(steps[k], obs);
    if k == 0 {
      NoDeathBetween(steps, obs, k);
      CountMonotone(obs, DiedUpTo(steps[k].age), DiedAt(steps[k].age));
      CountMonotone(obs, DiedAt(steps[k].age), DiedUpTo(steps[k].age));
    } else {
      EventsUpToStep(steps, obs, k - 1);
      NoDeathBetween(steps, obs, k);
      CountSplit(obs, DiedUpTo(steps[k].age), DiedUpTo(steps[k - 1].age), DiedAt(steps[k].age));
    }
  }

  lemma NoDeathBetween(steps: seq<Step>, obs: seq<Evidence>, k: nat)
    requires Increasing(steps) && DeathsHaveSteps(steps, obs, |obs|)
    requires k < |steps|
    ensures forall i | 0 <= i < |obs| && obs[i].died && obs[i].age < steps[k].age ::
              k > 0 && obs[i].age <= steps[k - 1].age
  {
    forall i | 0 <= i < |obs| && obs[i].died && obs[i].age < steps[k].age
      ensures k > 0 && obs[i].age <= steps[k - 1].age
    {
      assert HasStep(steps, obs[i].age);
      var j :| 0 <= j < |steps| && steps[j].age == obs[i].age;
      assert j < k;
    }
  }

  /** Who is at risk at a step dies there, was last seen alive before the next step, or is at risk at that; after the last
      step nobody is. */
  lemma RiskSetRunsOut(curve: Curve, obs: seq<Evidence>, k: nat)
    requires Describes(curve, obs) && k < |curve.steps|
    ensures var steps := curve.steps;
            steps[k].atRisk ==
            steps[k].events
            + (if k + 1 < |steps| then Count(obs, AliveFrom(steps[k].age)) - Count(obs, AliveFrom(steps[k + 1].age)) + steps[k + 1].atRisk
               else Count(obs, AliveFrom(steps[k].age)))
  {
    var steps := curve.steps;
    DeathsFromStep(steps, obs, k);
    if k + 1 < |steps| {
      DeathsFromStep(steps, obs, k + 1);
    }
  }

  /** From a step on: those seen alive, those who die there, and those who die later, at the next step or after it. */
  lemma DeathsFromStep(steps: seq<Step>, obs: seq<Evidence>, k: nat)
    requires StepsFit(steps, obs) && k < |steps|
    ensures steps[k].atRisk == Count(obs, AliveFrom(steps[k].age)) + Count(obs, DiedFrom(steps[k].age))
    ensures Count(obs, DiedFrom(steps[k].age)) ==
            steps[k].events + if k + 1 < |steps| then Count(obs, DiedFrom(steps[k + 1].age)) else 0
  {
    var a := steps[k].age;
    assert StepFits(steps[k], obs);
    CountSplit(obs, AtLeast(a), AliveFrom(a), DiedFrom(a));
    if k + 1 < |steps| {
      var b := steps[k + 1].age;
      NoDeathBetween(steps, obs, k + 1);
      CountSplit(obs, DiedFrom(a), DiedAt(a), DiedFrom(b));
    } else {
      DeathsAreAtSteps(steps, obs, k, Furthest(obs, a));
      assert forall i | 0 <= i < |obs| && obs[i].died :: obs[i].age <= a;
      CountMonotone(obs, DiedFrom(a), DiedAt(a));
      CountMonotone(obs, DiedAt(a), DiedFrom(a));
    }
  }

  /** An age that nobody exceeds. */
  function Furthest(obs: seq<Evidence>, least: real): (t: real)
    ensures t >= least && forall i | 0 <= i < |obs| :: obs[i].age <= t
  {
    if obs == [] then least
    else
      var rest := Furthest(obs[1..], least);
      assert forall i | 0 < i < |obs| :: obs[i] == obs[1..][i - 1];
      Max(rest, obs[0].age)
  }

  /** The events of all steps are exactly the misses. */
  lemma EventsAreAllMisses(curve: Curve, obs: seq<Evidence>)
    requires Describes(curve, obs)
    ensures SumEvents(curve.steps) == Count(obs, Died)
  {
    var steps := curve.steps;
    forall i | 0 <= i < |obs| && obs[i].died
      ensures steps != [] && obs[i].age <= steps[|steps| - 1].age
    {
      assert HasStep(steps, obs[i].age);
    }
    if steps == [] {
      CountNone(obs, Died);
    } else {
      EventsUpToStep(steps, obs, |steps| - 1);
      assert steps[..|steps|] == steps;
      CountMonotone(obs, DiedUpTo(steps[|steps| - 1].age), Died);
      CountMonotone(obs, Died, DiedUpTo(steps[|steps| - 1].age));
    }
  }

  // -- order does not matter --------------------------------------------------

  /** The curve depends only on which observations there are, not on their order, and is unique. */
  lemma CurveIsOrderFree(c1: Curve, c2: Curve, a: seq<Evidence>, b: seq<Evidence>)
    requires Describes(c1, a) && Describes(c2, b) && multiset(a) == multiset(b)
    ensures c1 == c2
  {
    DescribesAnyOrder(c1, a, b);
    SameHorizon(b, c1.horizon, c2.horizon);
    SameSteps(c1.steps, c2.steps, b);
  }

  lemma SameHorizon(obs: seq<Evidence>, h1: Option<real>, h2: Option<real>)
    requires IsHorizon(obs, h1) && IsHorizon(obs, h2)
    ensures h1 == h2
  {
    if obs != [] {
      var i :| 0 <= i < |obs| && obs[i].age == h1.value;
      var j :| 0 <= j < |obs| && obs[j].age == h2.value;
      assert h1.value <= h2.value && h2.value <= h1.value;
    }
  }

  predicate Covers(s1: seq<Step>, s2: seq<Step>) {
    forall k {:trigger HasStep(s1, s2[k].age)} | 0 <= k < |s2| :: HasStep(s1, s2[k].age)
  }

  lemma SameSteps(s1: seq<Step>, s2: seq<Step>, obs: seq<Evidence>)
    requires StepsFit(s1, obs) && StepsFit(s2, obs)
    ensures s1 == s2
  {
    FitCovers(s1, s2, obs);
    FitCovers(s2, s1, obs);
    SameAges(s1, s2);
    forall k | 0 <= k < |s1|
      ensures s1[k] == s2[k]
    {
      assert StepFits(s1[k], obs) && StepFits(s2[k], obs);
    }
  }

  lemma FitCovers(s1: seq<Step>, s2: seq<Step>, obs: seq<Evidence>)
    requires StepsFit(s1, obs) && StepsFit(s2, obs)
    ensures Covers(s1, s2)
  {
    forall k | 0 <= k < |s2|
      ensures HasStep(s1, s2[k].age)
    {
      assert StepFits(s2[k], obs);
      var i :| 0 <= i < |obs| && obs[i].died && obs[i].age == s2[k].age;
      assert HasStep(s1, obs[i].age);
    }
  }

  /** Two increasing lists of steps over the same ages have the same ages at the same places. */
  lemma {:induction false} SameAges(s1: seq<Step>, s2: seq<Step>)
    requires Increasing(s1) && Increasing(s2) && Covers(s1, s2) && Covers(s2, s1)
    ensures |s1| == |s2| && forall k | 0 <= k < |s1| :: s1[k].age == s2[k].age
    decreases |s1|
  {
    if s1 == [] {
      assert s2 != [] ==> HasStep(s1, s2[0].age);
    } else {
      var n1, n2 := |s1| - 1, |s2| - 1;
      assert HasStep(s2, s1[n1].age);
      assert HasStep(s1, s2[n2].age);
      assert s1[n1].age == s2[n2].age;
      FrontCovers(s1, s2);
      FrontCovers(s2, s1);
      SameAges(s1[..n1], s2[..n2]);
    }
  }

  lemma FrontCovers(s1: seq<Step>, s2: seq<Step>)
    requires Increasing(s1) && Increasing(s2) && Covers(s1, s2) && s1 != [] && s2 != []
    requires s1[|s1| - 1].age == s2[|s2| - 1].age
    ensures Covers(s1[..|s1| - 1], s2[..|s2| - 1])
  {
    var f1, f2 := s1[..|s1| - 1], s2[..|s2| - 1];
    forall k | 0 <= k < |f2|
      ensures HasStep(f1, f2[k].age)
    {
      assert HasStep(s1, s2[k].age);
      var j :| 0 <= j < |s1| && s1[j].age == s2[k].age;
      assert s2[k].age < s2[|s2| - 1].age;
      assert f1[j].age == f2[k].age;
    }
  }
}
