/** One route's learned TTL bounds (ttl.py): the profile object, its estimator and the resolver over it. */
module TtlProfiles {
  import opened Wrappers

  const CONFIDENCE_FLOOR: real := 0.05
  const CONFIDENCE_CEIL: real := 0.95
  const HIT_DELTA: real := 0.05
  const MISS_DELTA: real := 0.02
  const UNVERIFIED_DELTA: real := -0.05
  const INCONSISTENT_DELTA: real := -0.05
  const FRESH_CONFIDENCE: real := 0.5
  const HIGH_CONFIDENCE_THRESHOLD: real := 0.7
  const ESTIMATE_INTERVAL_FRACTION: real := 0.35

  /** Which route a profile or an observation belongs to; the endpoint and the route travel as digests. */
  datatype RouteIdentity = RouteIdentity(
    provider: string, model: string, apiMode: string, endpointHash: string, routeHash: Option<string>)

  datatype Profile = Profile(
    identity: RouteIdentity, lower: Option<real>, upper: Option<real>, estimate: Option<real>,
    confidence: real, sampleCount: nat)

  function NewProfile(identity: RouteIdentity): Profile {
    Profile(identity, None, None, None, FRESH_CONFIDENCE, 0)
  }

  /** Favours the lower side of the interval; never a guess without evidence or hint. */
  function Estimate(lower: Option<real>, upper: Option<real>, hint: Option<real>): Option<real> {
    if upper.Some? then
      var low := lower.UnwrapOr(0.0);
      Some(low + (upper.value - low) * ESTIMATE_INTERVAL_FRACTION)
    else if hint.None? && lower.None? then None
    else Some(Max(hint.UnwrapOr(0.0), lower.UnwrapOr(0.0)))
  }

  function Adjusted(confidence: real, delta: real): real {
    Min(CONFIDENCE_CEIL, Max(CONFIDENCE_FLOOR, confidence + delta))
  }

  /** One clean observation applied to a profile. */
  function Observed(p: Profile, outcome: Outcome, idleAge: Option<real>): Profile {
    if outcome == Failed then p
    else
      var q :=
        if outcome == SuccessUnverified then p.(confidence := Adjusted(p.confidence, UNVERIFIED_DELTA))
        else if idleAge.Some? && idleAge.value >= 0.0 then
          if outcome == ConfirmedHit then
            var lower := Max(p.lower.UnwrapOr(0.0), idleAge.value);
            var consistent := p.upper.None? || lower <= p.upper.value;
            p.(sampleCount := p.sampleCount + 1, lower := Some(lower),
               confidence := Adjusted(p.confidence, if consistent then HIT_DELTA else INCONSISTENT_DELTA))
          else
            var upper := if p.upper.None? then idleAge.value else Min(p.upper.value, idleAge.value);
            var consistent := p.lower.None? || upper >= p.lower.value;
            p.(sampleCount := p.sampleCount + 1, upper := Some(upper),
               confidence := Adjusted(p.confidence, if consistent then MISS_DELTA else INCONSISTENT_DELTA))
        else p;
      q.(estimate := Estimate(q.lower, q.upper, None))
  }

  /** A route change under a known key starts its confidence afresh and leaves the bounds alone. */
  function Restarted(p: Profile): Profile {
    p.(confidence := FRESH_CONFIDENCE)
  }

  class TTLProfile {
    const identity: RouteIdentity
    var lower: Option<real>
    var upper: Option<real>
    var estimate: Option<real>
    var confidence: real
    var sampleCount: nat

    constructor (row: Profile)
      ensures View() == row
    {
      identity, lower, upper := row.identity, row.lower, row.upper;
      estimate, confidence, sampleCount := row.estimate, row.confidence, row.sampleCount;
    }

    function View(): Profile
      reads this
    {
      Profile(identity, lower, upper, estimate, confidence, sampleCount)
    }

    method AdjustConfidence(delta: real)
      modifies this`confidence
      ensures confidence == Adjusted(old(confidence), delta)
    {
      confidence := Min(CONFIDENCE_CEIL, Max(CONFIDENCE_FLOOR, confidence + delta));
    }

    method Observe(outcome: Outcome, idleAge: Option<real>)
      modifies this
      ensures View() == Observed(old(View()), outcome, idleAge)
    {
      if outcome == Failed {
        return;
      }
      if outcome == SuccessUnverified {
        AdjustConfidence(UNVERIFIED_DELTA);
      } else if idleAge.Some? && idleAge.value >= 0.0 {
        sampleCount := sampleCount + 1;
        if outcome == ConfirmedHit {
          var newLower := Max(lower.UnwrapOr(0.0), idleAge.value);
          lower := Some(newLower);
          var consistent := upper.None? || newLower <= upper.value;
          AdjustConfidence(if consistent then HIT_DELTA else INCONSISTENT_DELTA);
        } else {
          var newUpper := if upper.None? then idleAge.value else Min(upper.value, idleAge.value);
          upper := Some(newUpper);
          var consistent := lower.None? || newUpper >= lower.value;
          AdjustConfidence(if consistent then MISS_DELTA else INCONSISTENT_DELTA);
        }
      }
      estimate := Estimate(lower, upper, None);
    }
  }

  // -- the resolver -----------------------------------------------------------

  datatype Source = FromForce | FromLearned | FromHint | FromDefault

  datatype Resolution = Resolution(ttl: real, confidence: real, source: Source)

  datatype Hint = Hint(ttl: real, confidence: real)

  datatype ResolverConfig = ResolverConfig(force: Option<real>, defaultTtl: real, minimumSamples: nat)

  function Resolve(config: ResolverConfig, profile: Option<Profile>, hint: Option<Hint>): Resolution {
    if config.force.Some? then Resolution(config.force.value, 1.0, FromForce)
    else
      var estimate :=
        if profile.Some?
        then Estimate(profile.value.lower, profile.value.upper, if hint.Some? then Some(hint.value.ttl) else None)
        else None;
      if && estimate.Some? && profile.value.confidence >= HIGH_CONFIDENCE_THRESHOLD
         && profile.value.sampleCount >= config.minimumSamples
      then Resolution(estimate.value, profile.value.confidence, FromLearned)
      else if hint.Some? && hint.value.ttl > 0.0 then Resolution(hint.value.ttl, hint.value.confidence, FromHint)
      else Resolution(config.defaultTtl, 0.5, FromDefault)
  }

  /** The larger of two ages, an absent one counting as zero. */
  predicate IsLargerOf(x: real, a: Option<real>, b: Option<real>) {
    && x >= a.UnwrapOr(0.0) && x >= b.UnwrapOr(0.0) && (x == a.UnwrapOr(0.0) || x == b.UnwrapOr(0.0))
  }

  /** Seven twentieths of the way from the lower bound (zero when there is none) to the upper one; without an upper bound
      the larger of hint and lower bound, and nothing without either. */
  lemma EstimateExactly(lower: Option<real>, upper: Option<real>, hint: Option<real>)
    ensures var estimate := Estimate(lower, upper, hint);
            && (estimate.None? <==> upper.None? && lower.None? && hint.None?)
            && (upper.Some? ==>
                  20.0 * (estimate.value - lower.UnwrapOr(0.0)) == 7.0 * (upper.value - lower.UnwrapOr(0.0)))
            && (upper.None? && estimate.Some? ==> IsLargerOf(estimate.value, hint, lower))
  {
  }

  /** The profile has evidence enough to be asked before the hint. */
  predicate IsTrusted(config: ResolverConfig, p: Profile, hint: Option<Hint>) {
    && (p.lower.Some? || p.upper.Some? || hint.Some?)
    && 10.0 * p.confidence >= 7.0 && p.sampleCount >= config.minimumSamples
  }

  /** The whole hierarchy: the operator's value with certainty; else a trusted profile's estimate with its confidence; else
      a positive hint with its own; else the default with one half. */
  lemma ResolvesExactly(config: ResolverConfig, profile: Option<Profile>, hint: Option<Hint>)
    ensures var r := Resolve(config, profile, hint);
            var forced, trusted := config.force.Some?, profile.Some? && IsTrusted(config, profile.value, hint);
            var hinted := hint.Some? && hint.value.ttl > 0.0;
            && (r.source == FromForce <==> forced)
            && (r.source == FromLearned <==> !forced && trusted)
            && (r.source == FromHint <==> !forced && !trusted && hinted)
            && (r.source == FromDefault <==> !forced && !trusted && !hinted)
            && (forced ==> r.ttl == config.force.value && r.confidence == 1.0)
            && (r.source == FromHint ==> r.ttl == hint.value.ttl && r.confidence == hint.value.confidence)
            && (r.source == FromDefault ==> r.ttl == config.defaultTtl && r.confidence == 0.5)
            && (r.source == FromLearned ==>
                  var p := profile.value;
                  && r.confidence == p.confidence
                  && (p.upper.Some? ==> 20.0 * (r.ttl - p.lower.UnwrapOr(0.0)) == 7.0 * (p.upper.value - p.lower.UnwrapOr(0.0)))
                  && (p.upper.None? ==> IsLargerOf(r.ttl, if hint.Some? then Some(hint.value.ttl) else None, p.lower)))
  {
    if profile.Some? {
      EstimateExactly(profile.value.lower, profile.value.upper, if hint.Some? then Some(hint.value.ttl) else None);
    }
  }

  /** Confidence, in hundredths and within [5, 95]: a hit in agreement with the upper bound earns 5, a miss in agreement with
      the lower one 2; an unverified answer, a hit above the upper bound or a miss below the lower one costs 5. */
  function ConfidenceStep(p: Profile, outcome: Outcome, idleAge: Option<real>): real {
    match outcome
    case Failed => 0.0
    case SuccessUnverified => -5.0
    case ConfirmedHit =>
      if idleAge.None? || idleAge.value < 0.0 then 0.0
      else if p.upper.Some? && (idleAge.value > p.upper.value || p.lower.UnwrapOr(0.0) > p.upper.value) then -5.0 else 5.0
    case MissRebuilt =>
      if idleAge.None? || idleAge.value < 0.0 then 0.0
      else if p.lower.Some? && (idleAge.value < p.lower.value || (p.upper.Some? && p.upper.value < p.lower.value)) then -5.0
      else 2.0
  }

  lemma ConfidenceMovesExactly(p: Profile, outcome: Outcome, idleAge: Option<real>)
    requires 5.0 <= 100.0 * p.confidence <= 95.0
    ensures var before, after := 100.0 * p.confidence, 100.0 * Observed(p, outcome, idleAge).confidence;
            var sum := before + ConfidenceStep(p, outcome, idleAge);
            after == if sum < 5.0 then 5.0 else if sum > 95.0 then 95.0 else sum
  {
  }

  /** A learned answer always lies inside the learned interval when there is one, so it is never beyond the least age
      at which the cache was seen dead. */
  lemma LearnedIsInsideTheInterval(config: ResolverConfig, profile: Profile, hint: Option<Hint>)
    requires Resolve(config, Some(profile), hint).source == FromLearned
    requires profile.upper.Some? && profile.lower.UnwrapOr(0.0) <= profile.upper.value
    ensures profile.lower.UnwrapOr(0.0) <= Resolve(config, Some(profile), hint).ttl <= profile.upper.value
  {
  }

  // -- the profile key --------------------------------------------------------

  /** The five components joined by '|', an absent route as the empty string. */
  function JoinKey(id: RouteIdentity): string {
    id.provider + "|" + (id.model + "|" + (id.apiMode + "|" + (id.endpointHash + "|" + id.routeHash.UnwrapOr(""))))
  }

  predicate PipeFree(s: string) {
    forall i | 0 <= i < |s| :: s[i] != '|'
  }

  /** The components the relay produces: no '|' before the route, and a route is never the empty string. */
  predicate WellFormed(id: RouteIdentity) {
    && PipeFree(id.provider) && PipeFree(id.model) && PipeFree(id.apiMode) && PipeFree(id.endpointHash)
    && (id.routeHash.Some? ==> id.routeHash.value != "")
  }

  lemma SameFirstPart(a: string, b: string, x: string, y: string)
    requires PipeFree(a) && PipeFree(b) && a + "|" + x == b + "|" + y
    ensures a == b && x == y
  {
    FirstPipeIsNoEarlier(a, b, x, y);
    FirstPipeIsNoEarlier(b, a, y, x);
    var s := a + "|" + x;
    assert a == s[..|a|] && b == s[..|b|];
    assert x == s[|a| + 1..] && y == s[|b| + 1..];
  }

  lemma FirstPipeIsNoEarlier(a: string, b: string, x: string, y: string)
    requires PipeFree(b) && a + "|" + x == b + "|" + y
    ensures |a| >= |b|
  {
    assert (a + "|" + x)[|a|] == '|';
    assert forall i | 0 <= i < |b| :: (b + "|" + y)[i] == b[i];
  }

  /** The key is unambiguous on the identities the relay produces. */
  lemma JoinKeyIsInjective(a: RouteIdentity, b: RouteIdentity)
    requires WellFormed(a) && WellFormed(b) && JoinKey(a) == JoinKey(b)
    ensures a == b
  {
    var a4, b4 := a.endpointHash + "|" + a.routeHash.UnwrapOr(""), b.endpointHash + "|" + b.routeHash.UnwrapOr("");
    var a3, b3 := a.apiMode + "|" + a4, b.apiMode + "|" + b4;
    SameFirstPart(a.provider, b.provider, a.model + "|" + a3, b.model + "|" + b3);
    SameFirstPart(a.model, b.model, a3, b3);
    SameFirstPart(a.apiMode, b.apiMode, a4, b4);
    SameFirstPart(a.endpointHash, b.endpointHash, a.routeHash.UnwrapOr(""), b.routeHash.UnwrapOr(""));
  }

  /** Off them it is not: an absent route and an empty one share a key. */
  lemma EmptyRouteCollides(id: RouteIdentity)
    requires id.routeHash == None
    ensures JoinKey(id) == JoinKey(id.(routeHash := Some(""))) && id != id.(routeHash := Some(""))
  {
  }

  // -- contradiction ----------------------------------------------------------

  /** A hit older than the youngest miss: the two bounds exclude every TTL. */
  predicate Contradictory(p: Profile) {
    p.lower.Some? && p.upper.Some? && p.lower.value > p.upper.value
  }

  predicate VerifiedAt(outcome: Outcome, idleAge: Option<real>) {
    (outcome == ConfirmedHit || outcome == MissRebuilt) && idleAge.Some? && idleAge.value >= 0.0
  }

  /** Contradiction survives every observation and every restart; each further hit or miss costs confidence. */
  lemma ContradictionIsAbsorbing(p: Profile, outcome: Outcome, idleAge: Option<real>)
    requires Contradictory(p)
    ensures Contradictory(Observed(p, outcome, idleAge)) && Contradictory(Restarted(p))
    ensures VerifiedAt(outcome, idleAge) ==>
              Observed(p, outcome, idleAge).confidence == Adjusted(p.confidence, INCONSISTENT_DELTA)
  {
  }

  datatype ProfileEvent = Saw(outcome: Outcome, idleAge: Option<real>) | RouteChanged

  function Evolved(p: Profile, events: seq<ProfileEvent>): Profile
    decreases |events|
  {
    if events == [] then p
    else
      match events[0]
      case Saw(outcome, age) => Evolved(Observed(p, outcome, age), events[1..])
      case RouteChanged => Evolved(Restarted(p), events[1..])
  }

  function VerifiedCount(events: seq<ProfileEvent>): nat {
    if events == [] then 0
    else (if events[0].Saw? && VerifiedAt(events[0].outcome, events[0].idleAge) then 1 else 0) + VerifiedCount(events[1..])
  }

  lemma {:induction false} EvolvedConcat(p: Profile, a: seq<ProfileEvent>, b: seq<ProfileEvent>)
    ensures Evolved(p, a + b) == Evolved(Evolved(p, a), b)
    decreases |a|
  {
    if a == [] {
      assert a + b == b;
    } else {
      assert (a + b)[0] == a[0] && (a + b)[1..] == a[1..] + b;
      match a[0]
      case Saw(outcome, age) => EvolvedConcat(Observed(p, outcome, age), a[1..], b);
      case RouteChanged => EvolvedConcat(Restarted(p), a[1..], b);
    }
  }

  /** What confidence a profile can have earned: the observation that made it contradictory has already cost it. */
  predicate Earned(p: Profile) {
    && p.confidence <= CONFIDENCE_CEIL
    && (Contradictory(p) ==> p.confidence <= CONFIDENCE_CEIL + INCONSISTENT_DELTA)
  }

  lemma {:induction false} EvolvingKeepsEarned(p: Profile, events: seq<ProfileEvent>)
    requires Earned(p)
    ensures Earned(Evolved(p, events))
    decreases |events|
  {
    if events != [] {
      match events[0]
      case Saw(outcome, age) => EvolvingKeepsEarned(Observed(p, outcome, age), events[1..]);
      case RouteChanged => EvolvingKeepsEarned(Restarted(p), events[1..]);
    }
  }

  /** The most confidence a contradictory profile can have after n further verified observations. */
  function ConfidenceCap(n: nat): real {
    Max(FRESH_CONFIDENCE, CONFIDENCE_CEIL + INCONSISTENT_DELTA - 0.05 * n as real)
  }

  lemma {:induction false} ContradictionErodes(p: Profile, events: seq<ProfileEvent>, n: nat)
    requires Contradictory(p) && p.confidence <= ConfidenceCap(n)
    ensures Contradictory(Evolved(p, events)) && Evolved(p, events).confidence <= ConfidenceCap(n + VerifiedCount(events))
    decreases |events|
  {
    if events != [] {
      match events[0]
      case Saw(outcome, age) =>
        ContradictionIsAbsorbing(p, outcome, age);
        ContradictionErodes(Observed(p, outcome, age), events[1..], if VerifiedAt(outcome, age) then n + 1 else n);
      case RouteChanged =>
        ContradictionErodes(Restarted(p), events[1..], n);
    }
  }

  lemma EarnedContradictionIsNeverTrustedAgain(
      config: ResolverConfig, p: Profile, events: seq<ProfileEvent>, hint: Option<Hint>)
    requires Earned(p) && Contradictory(p) && VerifiedCount(events) >= 5
    ensures Resolve(config, Some(Evolved(p, events)), hint).source != FromLearned
  {
    ContradictionErodes(p, events, 0);
  }

  /** Take any history of a profile that has become contradictory. After at most five further verified observations,
      whatever else happens and for ever after, no resolution comes from the learned tier. */
  lemma ContradictoryProfileIsNeverTrustedAgain(
      config: ResolverConfig, id: RouteIdentity, past: seq<ProfileEvent>, events: seq<ProfileEvent>, hint: Option<Hint>)
    requires Contradictory(Evolved(NewProfile(id), past)) && VerifiedCount(events) >= 5
    ensures Resolve(config, Some(Evolved(NewProfile(id), past + events)), hint).source != FromLearned
  {
    EvolvingKeepsEarned(NewProfile(id), past);
    EarnedContradictionIsNeverTrustedAgain(config, Evolved(NewProfile(id), past), events, hint);
    EvolvedConcat(NewProfile(id), past, events);
  }

  // -- five is the least such number ------------------------------------------

  function Hits(n: nat, age: real): seq<ProfileEvent> {
    if n == 0 then [] else [Saw(ConfirmedHit, Some(age))] + Hits(n - 1, age)
  }

  /** Consistent hits raise confidence by one step each, up to the ceiling. */
  lemma {:induction false} HitsRaise(p: Profile, n: nat, age: real)
    requires p.upper == None && age > 0.0 && (p.lower == None || p.lower == Some(age))
    requires CONFIDENCE_FLOOR <= p.confidence && p.confidence + HIT_DELTA * n as real <= CONFIDENCE_CEIL
    ensures var q := Evolved(p, Hits(n, age));
            && q.identity == p.identity && q.upper == None && (n > 0 ==> q.lower == Some(age))
            && q.sampleCount == p.sampleCount + n && q.confidence == p.confidence + HIT_DELTA * n as real
    decreases n
  {
    if n > 0 {
      var first := Saw(ConfirmedHit, Some(age));
      assert Hits(n, age)[0] == first && Hits(n, age)[1..] == Hits(n - 1, age);
      HitsRaise(Observed(p, ConfirmedHit, Some(age)), n - 1, age);
    }
  }

  /** Nine hits at 300 seconds, then a miss at 200. */
  function ToContradiction(): seq<ProfileEvent> {
    Hits(9, 300.0) + [Saw(MissRebuilt, Some(200.0))]
  }

  lemma ToContradictionReaches(id: RouteIdentity)
    ensures var p := Evolved(NewProfile(id), ToContradiction());
            && p.lower == Some(300.0) && p.upper == Some(200.0)
            && p.confidence == CONFIDENCE_CEIL + INCONSISTENT_DELTA && p.sampleCount == 10
  {
    HitsRaise(NewProfile(id), 9, 300.0);
    var miss := [Saw(MissRebuilt, Some(200.0))];
    EvolvedConcat(NewProfile(id), Hits(9, 300.0), miss);
    assert miss[1..] == [];
    var q := Evolved(NewProfile(id), Hits(9, 300.0));
    assert Evolved(q, miss) == Observed(q, MissRebuilt, Some(200.0));
  }

  /** Above the floor, each hit on a contradiction costs exactly one step. */
  lemma {:induction false} HitsErode(p: Profile, n: nat, age: real)
    requires Contradictory(p) && age > 0.0 && age <= p.lower.value
    requires p.confidence <= CONFIDENCE_CEIL && p.confidence - 0.05 * n as real >= CONFIDENCE_FLOOR
    ensures var q := Evolved(p, Hits(n, age));
            && q.lower == p.lower && q.upper == p.upper
            && q.sampleCount == p.sampleCount + n && q.confidence == p.confidence - 0.05 * n as real
    decreases n
  {
    if n > 0 {
      assert Hits(n, age)[0] == Saw(ConfirmedHit, Some(age)) && Hits(n, age)[1..] == Hits(n - 1, age);
      HitsErode(Observed(p, ConfirmedHit, Some(age)), n - 1, age);
    }
  }

  /** That bound is attained: a profile the observations above produce is still trusted after n further hits, for
      n up to ten, exactly when n is less than five. */
  lemma TrustIsLostAtTheFifth(config: ResolverConfig, id: RouteIdentity, n: nat, hint: Option<Hint>)
    requires config.force == None && config.minimumSamples <= 10 && n <= 10
    ensures var p := Evolved(NewProfile(id), ToContradiction() + Hits(n, 300.0));
            Resolve(config, Some(p), hint).source == FromLearned <==> n < 5
  {
    ToContradictionReaches(id);
    EvolvedConcat(NewProfile(id), ToContradiction(), Hits(n, 300.0));
    HitsErode(Evolved(NewProfile(id), ToContradiction()), n, 300.0);
  }
}
