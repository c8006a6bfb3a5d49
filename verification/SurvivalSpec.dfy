/** The product-limit curve of a collection of observations, stated without any loop: which ages kill, how many
    are at risk, and the product of the factors. */
module SurvivalSpec {

  /** One clean observation: the age it reached, and whether it died there (a miss) or was last seen alive (a hit). */
  datatype Evidence = Evidence(age: real, died: bool)

  datatype Query = AtLeast(age: real) | Above(age: real) | DiedAt(age: real) | DiedUpTo(age: real) | AliveBelow(age: real)
    | AliveFrom(age: real) | DiedFrom(age: real) | Died

  predicate Matches(e: Evidence, q: Query) {
    match q
    case AtLeast(a) => e.age >= a
    case Above(a) => e.age > a
    case DiedAt(a) => e.died && e.age == a
    case DiedUpTo(a) => e.died && e.age <= a
    case AliveBelow(a) => !e.died && e.age < a
    case AliveFrom(a) => !e.died && e.age >= a
    case DiedFrom(a) => e.died && e.age >= a
    case Died => e.died
  }

  function Count(obs: seq<Evidence>, q: Query): nat {
    if obs == [] then 0 else (if Matches(obs[0], q) then 1 else 0) + Count(obs[1..], q)
  }

  function DeathAges(obs: seq<Evidence>, t: real): set<real> {
    set i | 0 <= i < |obs| && obs[i].died && obs[i].age <= t :: obs[i].age
  }

  predicate IsLargest(ages: set<real>, a: real) {
    a in ages && forall b | b in ages :: b <= a
  }

  ghost function Largest(ages: set<real>): (a: real)
    requires ages != {}
    ensures IsLargest(ages, a)
  {
    LargestExists(ages);
    var a :| IsLargest(ages, a);
    a
  }

  lemma {:induction false} LargestExists(ages: set<real>)
    requires ages != {}
    ensures exists a :: IsLargest(ages, a)
    decreases ages
  {
    assert (forall x :: x !in ages) ==> ages == {};
    var x :| x in ages;
    if ages == {x} {
      assert IsLargest(ages, x);
    } else {
      LargestExists(ages - {x});
      var y :| IsLargest(ages - {x}, y);
      assert forall b | b in ages :: b == x || b in ages - {x};
      assert IsLargest(ages, if x >= y then x else y);
    }
  }

  /** The share that goes on when `dead` of `risk` die. */
  function GoingOn(dead: nat, risk: nat): real {
    if risk == 0 then 1.0 else 1.0 - dead as real / risk as real
  }

  /** The chance of surviving a death age, given having reached it. */
  function Factor(obs: seq<Evidence>, a: real): real {
    GoingOn(Count(obs, DiedAt(a)), Count(obs, AtLeast(a)))
  }

  ghost function Product(obs: seq<Evidence>, ages: set<real>): real
    decreases ages
  {
    if ages == {} then 1.0
    else
      var a := Largest(ages);
      Product(obs, ages - {a}) * Factor(obs, a)
  }

  /** The product-limit estimate at age t: the product of the factors of all death ages up to t. */
  ghost function Survival(obs: seq<Evidence>, t: real): real {
    Product(obs, DeathAges(obs, t))
  }

  // -- counting ---------------------------------------------------------------

  lemma {:induction false} CountAppend(a: seq<Evidence>, b: seq<Evidence>, q: Query)
    ensures Count(a + b, q) == Count(a, q) + Count(b, q)
  {
    if a == [] {
      assert a + b == b;
    } else {
      assert (a + b)[0] == a[0] && (a + b)[1..] == a[1..] + b;
      CountAppend(a[1..], b, q);
    }
  }

  /** Pointwise comparison of two queries. */
  lemma {:induction false} CountMonotone(obs: seq<Evidence>, p: Query, q: Query)
    requires forall i | 0 <= i < |obs| :: Matches(obs[i], p) ==> Matches(obs[i], q)
    ensures Count(obs, p) <= Count(obs, q) <= |obs|
  {
    if obs != [] {
      assert forall i | 0 <= i < |obs[1..]| :: obs[1..][i] == obs[i + 1];
      CountMonotone(obs[1..], p, q);
    }
  }

  /** One query split into two disjoint ones. */
  lemma {:induction false} CountSplit(obs: seq<Evidence>, whole: Query, p: Query, q: Query)
    requires forall i | 0 <= i < |obs| :: Matches(obs[i], whole) <==> Matches(obs[i], p) || Matches(obs[i], q)
    requires forall i | 0 <= i < |obs| :: !(Matches(obs[i], p) && Matches(obs[i], q))
    ensures Count(obs, whole) == Count(obs, p) + Count(obs, q)
  {
    if obs != [] {
      assert forall i | 0 <= i < |obs[1..]| :: obs[1..][i] == obs[i + 1];
      CountSplit(obs[1..], whole, p, q);
    }
  }

  lemma {:induction false} CountNone(obs: seq<Evidence>, q: Query)
    requires forall i | 0 <= i < |obs| :: !Matches(obs[i], q)
    ensures Count(obs, q) == 0
  {
    if obs != [] {
      CountNone(obs[1..], q);
    }
  }

  lemma {:induction false} CountAll(obs: seq<Evidence>, q: Query)
    requires forall i | 0 <= i < |obs| :: Matches(obs[i], q)
    ensures Count(obs, q) == |obs|
  {
    if obs != [] {
      CountAll(obs[1..], q);
    }
  }

  lemma {:induction false} CountPositive(obs: seq<Evidence>, q: Query, i: nat)
    requires i < |obs| && Matches(obs[i], q)
    ensures Count(obs, q) > 0
  {
    if i > 0 {
      CountPositive(obs[1..], q, i - 1);
    }
  }

  function Without(b: seq<Evidence>, i: nat): seq<Evidence>
    requires i < |b|
  {
    b[..i] + b[i + 1..]
  }

  lemma WithoutOne(b: seq<Evidence>, i: nat, q: Query)
    requires i < |b|
    ensures multiset(Without(b, i)) == multiset(b) - multiset{b[i]}
    ensures Count(b, q) == Count(Without(b, i), q) + if Matches(b[i], q) then 1 else 0
  {
    var head, tail := b[..i], b[i + 1..];
    assert b == head + ([b[i]] + tail);
    assert multiset(b) == multiset(head) + multiset{b[i]} + multiset(tail);
    assert multiset(head + tail) == multiset(head) + multiset(tail);
    CountAppend(head, [b[i]] + tail, q);
    CountAppend(head, tail, q);
    assert ([b[i]] + tail)[1..] == tail;
  }

  lemma {:induction false} CountIsOrderFree(a: seq<Evidence>, b: seq<Evidence>, q: Query)
    requires multiset(a) == multiset(b)
    ensures Count(a, q) == Count(b, q)
    decreases |a|
  {
    assert |multiset(b)| == |b|;
    if a != [] {
      assert a[0] in multiset(b);
      var i :| 0 <= i < |b| && b[i] == a[0];
      WithoutOne(a, 0, q);
      WithoutOne(b, i, q);
      CountIsOrderFree(Without(a, 0), Without(b, i), q);
    }
  }

  predicate IsProduct(z: real, x: real, y: real) {
    z == x * y
  }

  lemma SameProduct(z: real, z': real, x: real, y: real)
    requires IsProduct(z, x, y) && IsProduct(z', x, y)
    ensures z == z'
  {
  }

  lemma PeelLargest(obs: seq<Evidence>, ages: set<real>)
    requires ages != {}
    ensures IsProduct(Product(obs, ages), Product(obs, ages - {Largest(ages)}), Factor(obs, Largest(ages)))
  {
  }

  lemma {:induction false} ProductIsOrderFree(a: seq<Evidence>, b: seq<Evidence>, ages: set<real>)
    requires multiset(a) == multiset(b)
    ensures Product(a, ages) == Product(b, ages)
    decreases ages
  {
    if ages != {} {
      var x := Largest(ages);
      ProductIsOrderFree(a, b, ages - {x});
      CountIsOrderFree(a, b, AtLeast(x));
      CountIsOrderFree(a, b, DiedAt(x));
      PeelLargest(a, ages);
      PeelLargest(b, ages);
      SameProduct(Product(a, ages), Product(b, ages), Product(a, ages - {x}), Factor(a, x));
    }
  }

  lemma DeathAgesAreOrderFree(a: seq<Evidence>, b: seq<Evidence>, t: real)
    requires multiset(a) == multiset(b)
    ensures DeathAges(a, t) == DeathAges(b, t)
  {
    forall x | x in DeathAges(a, t)
      ensures x in DeathAges(b, t)
    {
      var i :| 0 <= i < |a| && a[i].died && a[i].age <= t && a[i].age == x;
      assert a[i] in multiset(b);
    }
    forall x | x in DeathAges(b, t)
      ensures x in DeathAges(a, t)
    {
      var i :| 0 <= i < |b| && b[i].died && b[i].age <= t && b[i].age == x;
      assert b[i] in multiset(a);
    }
  }

  /** Reordering the observations does not change the curve. */
  lemma SurvivalIsOrderFree(a: seq<Evidence>, b: seq<Evidence>, t: real)
    requires multiset(a) == multiset(b)
    ensures Survival(a, t) == Survival(b, t)
  {
    DeathAgesAreOrderFree(a, b, t);
    ProductIsOrderFree(a, b, DeathAges(a, t));
  }

  // -- one death age at a time ------------------------------------------------

  /** Adding a larger age multiplies by its factor. */
  lemma ProductOfLarger(obs: seq<Evidence>, ages: set<real>, a: real)
    requires forall b | b in ages :: b < a
    ensures Product(obs, ages + {a}) == Product(obs, ages) * Factor(obs, a)
  {
    assert Largest(ages + {a}) == a;
    assert (ages + {a}) - {a} == ages;
  }

  /** At a death age at least the dead are at risk, and every survivor was. */
  lemma DeathCounts(obs: seq<Evidence>, a: real)
    requires a in DeathAges(obs, a)
    ensures 0 < Count(obs, DiedAt(a)) <= Count(obs, AtLeast(a)) <= |obs|
    ensures Count(obs, AtLeast(a)) - Count(obs, DiedAt(a)) >= Count(obs, Above(a))
    ensures FactorFits(Factor(obs, a), Count(obs, AtLeast(a)), Count(obs, DiedAt(a)))
  {
    var i :| 0 <= i < |obs| && obs[i].died && obs[i].age <= a && obs[i].age == a;
    CountPositive(obs, DiedAt(a), i);
    CountMonotone(obs, DiedAt(a), AtLeast(a));
    DeadAndAboveFit(obs, a);
    ComplementOfRatio(Count(obs, DiedAt(a)), Count(obs, AtLeast(a)));
  }

  /** The factor of a death age, free of division: of `risk` at risk, all but `dead` go on. */
  predicate FactorFits(f: real, risk: nat, dead: nat) {
    0.0 <= f < 1.0 && f * risk as real == risk as real - dead as real
  }

  lemma ComplementOfRatio(part: nat, whole: nat)
    requires 0 < part <= whole
    ensures FactorFits(GoingOn(part, whole), whole, part)
  {
    var p, w := part as real, whole as real;
    assert (p / w) * w == p;
    assert 0.0 < p / w <= 1.0;
  }

  lemma {:induction false} DeadAndAboveFit(obs: seq<Evidence>, a: real)
    ensures Count(obs, DiedAt(a)) + Count(obs, Above(a)) <= Count(obs, AtLeast(a))
  {
    if obs != [] {
      DeadAndAboveFit(obs[1..], a);
    }
  }
}
