/** What has happened to one lease, as an append-only history, and the questions the guarantees ask of it.
    Nothing here looks at the lease: the protocol proves that the lease agrees with its history. */
module History {
  import opened Wrappers

  datatype Fact =
    | RequestStarted(at: real)
    /** `live` is false when the lease was already invalidated, so the end changed nothing. */
    | RequestEnded(outcome: Outcome, live: bool, at: real)
    | IdentityInvalidated
    /** The economic gate approved one warm of the given expected cost within a budget. */
    | Approved(budget: real, predictor: real)
    /** A warm reached the executor. */
    | Sent
    /** A warm was paid for; `rebuilt` says its answer carried cache-write evidence. */
    | Paid(warmOutcome: Outcome, rebuilt: bool, cost: real, at: real)

  datatype History = Empty | Then(past: History, fact: Fact)

  /** `earlier` is a point the history went through. */
  predicate IsPast(earlier: History, h: History) {
    earlier == h || (h.Then? && IsPast(earlier, h.past))
  }

  /** Real requests started so far. */
  function Starts(h: History): nat {
    match h
    case Empty => 0
    case Then(past, RequestStarted(_)) => Starts(past) + 1
    case Then(past, _) => Starts(past)
  }

  /** No real request started after the point `earlier`. */
  predicate NoStartSince(earlier: History, h: History) {
    earlier == h || (h.Then? && !h.fact.RequestStarted? && NoStartSince(earlier, h.past))
  }

  /** Real requests started and not yet ended. */
  function InFlight(h: History): int {
    match h
    case Empty => 0
    case Then(past, RequestStarted(_)) => InFlight(past) + 1
    case Then(past, RequestEnded(_, _, _)) => InFlight(past) - 1
    case Then(past, _) => InFlight(past)
  }

  /** Real requests never overlapped: at every moment at most one was in flight. */
  predicate Sequential(h: History) {
    0 <= InFlight(h) <= 1 && (h.Then? ==> Sequential(h.past))
  }

  /** Of the starts, ends and invalidations, the latest is a start. */
  predicate LastMarkIsStart(h: History) {
    match h
    case Empty => false
    case Then(_, RequestStarted(_)) => true
    case Then(_, RequestEnded(_, _, _)) => false
    case Then(_, IdentityInvalidated) => false
    case Then(past, _) => LastMarkIsStart(past)
  }

  predicate EverInvalidated(h: History) {
    h.Then? && (h.fact.IdentityInvalidated? || EverInvalidated(h.past))
  }

  /** Verified evidence about the cache: a confirmed-hit warm, or a verified answer to a real request. */
  predicate IsEvidence(fact: Fact) {
    || (fact.Paid? && fact.warmOutcome == ConfirmedHit)
    || (fact.RequestEnded? && fact.live && (fact.outcome == ConfirmedHit || fact.outcome == MissRebuilt))
  }

  predicate IsPaidMiss(fact: Fact) {
    fact.Paid? && fact.warmOutcome != ConfirmedHit
  }

  /** Paid warms that were not confirmed hits since the last piece of verified evidence. */
  function MissesSinceEvidence(h: History): nat {
    if h.Empty? || IsEvidence(h.fact) then 0
    else MissesSinceEvidence(h.past) + if IsPaidMiss(h.fact) then 1 else 0
  }

  /** Never, at any moment so far, more than two paid misses in a row without verified evidence. */
  predicate MissesAlwaysBounded(h: History) {
    MissesSinceEvidence(h) <= 2 && (h.Then? ==> MissesAlwaysBounded(h.past))
  }

  /** When the fact is a cache touch, its time. */
  function TouchTime(fact: Fact): Option<real> {
    match fact
    case RequestEnded(outcome, live, at) => if live && outcome != Failed then Some(at) else None
    case Paid(outcome, rebuilt, _, at) =>
      if outcome == ConfirmedHit || (outcome == MissRebuilt && rebuilt) then Some(at) else None
    case _ => None
  }

  function LastTouch(h: History): Option<real> {
    if h.Empty? then None
    else if TouchTime(h.fact).Some? then TouchTime(h.fact)
    else LastTouch(h.past)
  }

  function HitTime(fact: Fact): Option<real> {
    match fact
    case RequestEnded(outcome, live, at) => if live && outcome == ConfirmedHit then Some(at) else None
    case Paid(outcome, _, _, at) => if outcome == ConfirmedHit then Some(at) else None
    case _ => None
  }

  function LastHit(h: History): Option<real> {
    if h.Empty? then None
    else if HitTime(h.fact).Some? then HitTime(h.fact)
    else LastHit(h.past)
  }

  function PaidHits(h: History): nat {
    if h.Empty? then 0
    else PaidHits(h.past) + if h.fact.Paid? && h.fact.warmOutcome == ConfirmedHit then 1 else 0
  }

  function PaidWarms(h: History): nat {
    if h.Empty? then 0 else PaidWarms(h.past) + if h.fact.Paid? then 1 else 0
  }

  function TotalPaid(h: History): real {
    if h.Empty? then 0.0 else TotalPaid(h.past) + if h.fact.Paid? then h.fact.cost else 0.0
  }

  /** The largest budget the gate ever approved a warm under. */
  function LargestApproval(h: History): Option<real> {
    match h
    case Empty => None
    case Then(past, Approved(budget, _)) => Some(Max(budget, LargestApproval(past).UnwrapOr(budget)))
    case Then(past, _) => LargestApproval(past)
  }

  lemma {:induction false} PastIsTransitive(a: History, b: History, c: History)
    requires IsPast(a, b) && IsPast(b, c)
    ensures IsPast(a, c)
  {
    if b != c {
      PastIsTransitive(a, b, c.past);
    }
  }

  lemma {:induction false} PastHasNoMoreStarts(earlier: History, h: History)
    requires IsPast(earlier, h)
    ensures Starts(earlier) <= Starts(h)
  {
    if earlier != h {
      PastHasNoMoreStarts(earlier, h.past);
    }
  }

  /** Equal start counts at two points of one history leave no start between them. */
  lemma {:induction false} EqualStartsMeanNoStartBetween(earlier: History, h: History)
    requires IsPast(earlier, h) && Starts(earlier) == Starts(h)
    ensures NoStartSince(earlier, h)
  {
    if earlier != h {
      PastHasNoMoreStarts(earlier, h.past);
      EqualStartsMeanNoStartBetween(earlier, h.past);
    }
  }

  /** The bound holds between any two points, not only at the end. */
  lemma {:induction false} BoundedAtEveryPast(earlier: History, h: History)
    requires MissesAlwaysBounded(h) && IsPast(earlier, h)
    ensures MissesSinceEvidence(earlier) <= 2
  {
    if earlier != h {
      BoundedAtEveryPast(earlier, h.past);
    }
  }

  /** For requests that do not overlap, on a lease never invalidated, the latest mark decides whether one is
      in flight. */
  lemma {:induction false} LastMarkDecidesInFlight(h: History)
    requires Sequential(h) && !EverInvalidated(h)
    ensures LastMarkIsStart(h) <==> InFlight(h) == 1
  {
    if h.Then? {
      LastMarkDecidesInFlight(h.past);
    }
  }
}
