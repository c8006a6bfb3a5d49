/** Inequalities of the product-limit curve, for every collection of observations and every age. */
module SurvivalBounds {
  import opened Wrappers
  import opened SurvivalSpec

  /** The last death age up to t, and what came before it: nothing, or an earlier death age. */
  lemma Peel(obs: seq<Evidence>, t: real) returns (a: real, before: set<real>)
    requires DeathAges(obs, t) != {}
    ensures IsLargest(DeathAges(obs, t), a) && a <= t && a in DeathAges(obs, a)
    ensures before == DeathAges(obs, t) - {a} && before < DeathAges(obs, t)
    ensures IsProduct(Survival(obs, t), if before == {} then 1.0 else Survival(obs, Largest(before)), Factor(obs, a))
    ensures Survival(obs, t) == Survival(obs, a)
    ensures before != {} ==> Largest(before) < a && DeathAges(obs, Largest(before)) == before
  {
    a := Largest(DeathAges(obs, t));
    before := DeathAges(obs, t) - {a};
    assert DeathAges(obs, a) == DeathAges(obs, t);
    assert IsProduct(Survival(obs, t), Product(obs, before), Factor(obs, a));
    if before == {} {
      assert Product(obs, before) == 1.0;
    } else {
      var t' := Largest(before);
      assert t' in before;
      assert DeathAges(obs, t') == before;
    }
  }

  lemma UpToLastDeath(obs: seq<Evidence>, t: real, a: real)
    requires IsLargest(DeathAges(obs, t), a)
    ensures Count(obs, DiedUpTo(t)) == Count(obs, DiedUpTo(a)) && Count(obs, Above(t)) <= Count(obs, Above(a))
  {
    assert forall i | 0 <= i < |obs| && obs[i].died && obs[i].age <= t :: obs[i].age in DeathAges(obs, t);
    CountMonotone(obs, DiedUpTo(t), DiedUpTo(a));
    CountMonotone(obs, DiedUpTo(a), DiedUpTo(t));
    CountMonotone(obs, Above(t), Above(a));
  }

  /** The dead up to a are those before it plus those at it. */
  lemma DeadBefore(obs: seq<Evidence>, a: real, before: set<real>)
    requires a in DeathAges(obs, a) && before == DeathAges(obs, a) - {a}
    ensures before == {} ==> Count(obs, DiedUpTo(a)) == Count(obs, DiedAt(a))
    ensures before != {} ==>
              && Count(obs, DiedUpTo(a)) == Count(obs, DiedUpTo(Largest(before))) + Count(obs, DiedAt(a))
              && Count(obs, AtLeast(a)) <= Count(obs, Above(Largest(before)))
  {
    assert forall i | 0 <= i < |obs| && obs[i].died && obs[i].age <= a && obs[i].age != a :: obs[i].age in before;
    if before == {} {
      CountMonotone(obs, DiedUpTo(a), DiedAt(a));
      CountMonotone(obs, DiedAt(a), DiedUpTo(a));
    } else {
      var t := Largest(before);
      assert t in before && t < a;
      CountSplit(obs, DiedUpTo(a), DiedUpTo(t), DiedAt(a));
      CountMonotone(obs, AtLeast(a), Above(t));
    }
  }

  /** The last death age up to t in numbers: `risk` are at risk there, `dead` of them die, and the curve comes down by
      `factor` from its value at the previous death age, if there is one. */
  datatype Drop = Drop(age: real, factor: real, risk: nat, dead: nat, previous: Option<real>)

  lemma LastDrop(obs: seq<Evidence>, t: real) returns (d: Drop)
    requires DeathAges(obs, t) != {}
    ensures IsLargest(DeathAges(obs, t), d.age) && d.age <= t && d.age in DeathAges(obs, d.age)
    ensures IsLastDrop(obs, t, d) && FallsBy(obs, t, d)
    ensures d.risk == Count(obs, AtLeast(d.age)) && d.dead == Count(obs, DiedAt(d.age))
    ensures match d.previous
            case None => DeathAges(obs, t) == {d.age}
            case Some(t') =>
              && t' < d.age && t' in DeathAges(obs, t')
              && DeathAges(obs, t') == DeathAges(obs, t) - {d.age} && DeathAges(obs, t') < DeathAges(obs, t)
  {
    var a, before := Peel(obs, t);
    d := Drop(a, Factor(obs, a), Count(obs, AtLeast(a)), Count(obs, DiedAt(a)),
              if before == {} then None else Some(Largest(before)));
    DropCounts(obs, t, a, before, d);
  }

  lemma DropCounts(obs: seq<Evidence>, t: real, a: real, before: set<real>, d: Drop)
    requires IsLargest(DeathAges(obs, t), a) && a in DeathAges(obs, a) && before == DeathAges(obs, t) - {a}
    requires d == Drop(a, Factor(obs, a), Count(obs, AtLeast(a)), Count(obs, DiedAt(a)),
                       if before == {} then None else Some(Largest(before)))
    ensures IsLastDrop(obs, t, d)
  {
    UpToLastDeath(obs, t, a);
    assert DeathAges(obs, a) == DeathAges(obs, t);
    DeadBefore(obs, a, before);
    DeathCounts(obs, a);
  }

  /** n * S lies between the number still alive beyond t and the number not known dead by t. */
  predicate Sandwiched(n: real, s: real, above: nat, dead: nat) {
    0.0 <= s <= 1.0 && above as real <= n * s <= n - dead as real
  }

  lemma {:induction false} ScaledSandwich(obs: seq<Evidence>, t: real)
    ensures Sandwiched(|obs| as real, Survival(obs, t), Count(obs, Above(t)), Count(obs, DiedUpTo(t)))
    decreases DeathAges(obs, t)
  {
    if DeathAges(obs, t) == {} {
      NobodyDied(obs, t);
    } else {
      var d := LastDrop(obs, t);
      if d.previous.Some? {
        ScaledSandwich(obs, d.previous.value);
      }
      DropKeepsSandwich(obs, t, d);
    }
  }

  /** What LastDrop says of the last drop up to t. */
  predicate IsLastDrop(obs: seq<Evidence>, t: real, d: Drop) {
    && 0 < d.dead <= d.risk <= |obs| && Count(obs, Above(t)) <= d.risk - d.dead
    && FactorFits(d.factor, d.risk, d.dead)
    && match d.previous
       case None => Count(obs, DiedUpTo(t)) == d.dead
       case Some(t') => Count(obs, DiedUpTo(t)) == Count(obs, DiedUpTo(t')) + d.dead && d.risk <= Count(obs, Above(t'))
  }

  lemma DropKeepsSandwich(obs: seq<Evidence>, t: real, d: Drop)
    requires IsLastDrop(obs, t, d) && FallsBy(obs, t, d)
    requires d.previous.Some? ==>
               var t' := d.previous.value;
               Sandwiched(|obs| as real, Survival(obs, t'), Count(obs, Above(t')), Count(obs, DiedUpTo(t')))
    ensures Sandwiched(|obs| as real, Survival(obs, t), Count(obs, Above(t)), Count(obs, DiedUpTo(t)))
  {
    var s0, deadBefore := 1.0, 0;
    if d.previous.Some? {
      s0, deadBefore := Survival(obs, d.previous.value), Count(obs, DiedUpTo(d.previous.value));
      FewerAbove(|obs| as real, s0, Count(obs, Above(d.previous.value)), d.risk, deadBefore);
    }
    AddFactor(|obs| as real, s0, d.factor, Survival(obs, t), d.risk, d.dead, deadBefore,
              Count(obs, Above(t)), Count(obs, DiedUpTo(t)));
  }

  /** The curve at t is its value at the previous death age, or one, times the factor. */
  ghost predicate FallsBy(obs: seq<Evidence>, t: real, d: Drop) {
    IsProduct(Survival(obs, t), if d.previous.Some? then Survival(obs, d.previous.value) else 1.0, d.factor)
  }

  lemma NobodyDied(obs: seq<Evidence>, t: real)
    requires DeathAges(obs, t) == {}
    ensures Survival(obs, t) == 1.0
    ensures Count(obs, DiedUpTo(t)) == 0 && Count(obs, Above(t)) <= |obs|
  {
    assert forall i | 0 <= i < |obs| && obs[i].died && obs[i].age <= t :: obs[i].age in DeathAges(obs, t);
    CountNone(obs, DiedUpTo(t));
    CountMonotone(obs, Above(t), Above(t));
  }

  lemma FewerAbove(n: real, s: real, above: nat, fewer: nat, dead: nat)
    requires Sandwiched(n, s, above, dead) && fewer <= above
    ensures Sandwiched(n, s, fewer, dead)
  {
  }

  /** One more death age, with `risk` at risk of whom `dead` die, after `deadBefore` earlier deaths. */
  lemma AddFactor(n: real, s0: real, f: real, s: real, risk: nat, dead: nat, deadBefore: nat, above: nat, deadNow: nat)
    requires Sandwiched(n, s0, risk, deadBefore)
    requires 0 < dead <= risk && FactorFits(f, risk, dead)
    requires IsProduct(s, s0, f) && above <= risk - dead && deadNow == deadBefore + dead
    ensures Sandwiched(n, s, above, deadNow)
  {
    var r, alive := risk as real, n * s0;
    assert n * s == alive * f;
    assert (alive - r) * f >= 0.0;
    assert (alive - r) * (1.0 - f) >= 0.0;
    assert alive * f == alive - alive * (1.0 - f);
    assert r * (1.0 - f) == dead as real;
    assert s0 * f >= 0.0 && s0 * (1.0 - f) >= 0.0;
  }

  /** For every non-empty collection and every age: the fraction seen alive beyond t is at most S(t), and S(t) is at
      most the fraction not dead by t. */
  lemma KaplanMeierSandwich(obs: seq<Evidence>, t: real)
    requires obs != []
    ensures var n := |obs| as real;
            Count(obs, Above(t)) as real / n <= Survival(obs, t) <= 1.0 - Count(obs, DiedUpTo(t)) as real / n
  {
    ScaledSandwich(obs, t);
    DividedBounds(|obs| as real, Count(obs, Above(t)) as real, Survival(obs, t), Count(obs, DiedUpTo(t)) as real);
  }

  lemma DividedBounds(n: real, above: real, s: real, dead: real)
    requires n > 0.0 && above <= n * s <= n - dead
    ensures above / n <= s <= 1.0 - dead / n
  {
    QuotientBound(n, above, s);
    QuotientBound(n, dead, 1.0 - s);
  }

  lemma QuotientBound(n: real, x: real, y: real)
    requires n > 0.0 && x <= n * y
    ensures x / n <= y
  {
    assert (x / n) * n == x;
  }

  /** The curve never rises. */
  lemma {:induction false} SurvivalIsAntitone(obs: seq<Evidence>, t: real, u: real)
    requires t <= u
    ensures Survival(obs, u) <= Survival(obs, t)
    decreases DeathAges(obs, u)
  {
    if DeathAges(obs, u) != DeathAges(obs, t) {
      MoreDeathsLater(obs, t, u);
      var d := LastDrop(obs, u);
      NotYetDead(obs, t, u, d.age);
      DropFalls(obs, u, d);
      if d.previous.None? {
        NobodyDied(obs, t);
      } else if t <= d.previous.value {
        SurvivalIsAntitone(obs, t, d.previous.value);
      } else {
        SameDeathAges(obs, d.previous.value, t, u, d.age);
      }
    }
  }

  lemma DropFalls(obs: seq<Evidence>, u: real, d: Drop)
    requires IsLastDrop(obs, u, d) && FallsBy(obs, u, d)
    ensures Survival(obs, u) <= if d.previous.Some? then Survival(obs, d.previous.value) else 1.0
  {
    if d.previous.Some? {
      var t := d.previous.value;
      ScaledSandwich(obs, t);
      ShrunkByFactor(|obs| as real, Survival(obs, u), Survival(obs, t), d.factor, d.risk, d.dead,
                     Count(obs, Above(t)), Count(obs, DiedUpTo(t)));
    } else {
      ShrunkByFactor(1.0, Survival(obs, u), 1.0, d.factor, d.risk, d.dead, 0, 0);
    }
  }

  lemma MoreDeathsLater(obs: seq<Evidence>, t: real, u: real)
    requires t <= u
    ensures DeathAges(obs, t) <= DeathAges(obs, u)
  {
  }

  /** When the latest death up to u is after t, t has none of it. */
  lemma NotYetDead(obs: seq<Evidence>, t: real, u: real, a: real)
    requires t <= u && IsLargest(DeathAges(obs, u), a) && DeathAges(obs, u) != DeathAges(obs, t)
    ensures a > t && DeathAges(obs, t) <= DeathAges(obs, u) - {a}
  {
    assert a <= t ==> DeathAges(obs, u) == DeathAges(obs, t);
  }

  lemma SameDeathAges(obs: seq<Evidence>, t': real, t: real, u: real, a: real)
    requires t' < t <= u && t < a && DeathAges(obs, t') == DeathAges(obs, u) - {a}
    ensures DeathAges(obs, t) == DeathAges(obs, t')
  {
    assert forall x | x in DeathAges(obs, t) :: x in DeathAges(obs, u) && x != a;
    assert DeathAges(obs, t') <= DeathAges(obs, t);
  }

  lemma ShrunkByFactor(n: real, z: real, s: real, f: real, risk: nat, dead: nat, above: nat, deadNow: nat)
    requires Sandwiched(n, s, above, deadNow) && FactorFits(f, risk, dead) && IsProduct(z, s, f)
    ensures z <= s
  {
    var rest := 1.0 - f;
    assert s >= 0.0 && rest > 0.0;
    assert s * rest >= 0.0;
    assert s * rest == s - s * f;
  }

  /** Before any hit is lost to follow-up the product telescopes: at such a death age the curve is simply the fraction
      of all observations that outlive it. */
  lemma {:induction false} TelescopesBeforeFirstHit(obs: seq<Evidence>, a: real)
    requires a in DeathAges(obs, a) && Count(obs, AliveBelow(a)) == 0
    ensures IsProduct((Count(obs, AtLeast(a)) - Count(obs, DiedAt(a))) as real, |obs| as real, Survival(obs, a))
    decreases DeathAges(obs, a)
  {
    var d := LastDrop(obs, a);
    NoHitBelow(obs, a);
    var s0 := 1.0;
    if d.previous.None? {
      EverybodyReaches(obs, a);
    } else {
      var t := d.previous.value;
      s0 := Survival(obs, t);
      CountMonotone(obs, AliveBelow(t), AliveBelow(a));
      TelescopesBeforeFirstHit(obs, t);
      NothingBetween(obs, t, a);
    }
    ScaleFactor(|obs| as real, s0, d.factor, Survival(obs, a), d.risk, d.dead);
  }

  lemma EverybodyReaches(obs: seq<Evidence>, a: real)
    requires DeathAges(obs, a) == {a} && forall i | 0 <= i < |obs| :: obs[i].died || obs[i].age >= a
    ensures Count(obs, AtLeast(a)) == |obs|
  {
    assert forall i | 0 <= i < |obs| && obs[i].died && obs[i].age < a :: obs[i].age in DeathAges(obs, a);
    CountAll(obs, AtLeast(a));
  }

  /** No hit before a, and t the death age before it: whoever reaches t dies there or reaches a. */
  lemma NothingBetween(obs: seq<Evidence>, t: real, a: real)
    requires t < a && DeathAges(obs, t) == DeathAges(obs, a) - {a}
    requires forall i | 0 <= i < |obs| :: obs[i].died || obs[i].age >= a
    ensures Count(obs, AtLeast(t)) == Count(obs, DiedAt(t)) + Count(obs, AtLeast(a))
  {
    forall i | 0 <= i < |obs| && obs[i].age >= t && obs[i].age < a
      ensures obs[i].age == t
    {
      assert obs[i].age in DeathAges(obs, a);
      assert obs[i].age in DeathAges(obs, t);
    }
    CountSplit(obs, AtLeast(t), DiedAt(t), AtLeast(a));
  }

  lemma NoHitBelow(obs: seq<Evidence>, a: real)
    requires Count(obs, AliveBelow(a)) == 0
    ensures forall i | 0 <= i < |obs| :: obs[i].died || obs[i].age >= a
  {
    forall i | 0 <= i < |obs|
      ensures obs[i].died || obs[i].age >= a
    {
      if !obs[i].died && obs[i].age < a {
        CountPositive(obs, AliveBelow(a), i);
      }
    }
  }

  lemma ScaleFactor(n: real, s0: real, f: real, s: real, risk: nat, dead: nat)
    requires IsProduct(risk as real, n, s0) && FactorFits(f, risk, dead) && IsProduct(s, s0, f)
    ensures IsProduct((risk - dead) as real, n, s)
  {
    assert n * (s0 * f) == (n * s0) * f;
  }
}
