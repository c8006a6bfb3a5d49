/** How often a route pin is used: the requests of one lease, looked up and reconciled in any interleaving. */
module PinUse {
  import opened Wrappers
  import opened RouteAffinity

  type RequestId = nat

  /** One time a pin was handed to a request. `pinNumber` counts the pins of the lease; `inFlight` and `bystanders`
      are the requests in flight at that moment, and those in flight when the pin was set. */
  datatype Use = Use(
    pinNumber: nat, user: RequestId, userGeneration: nat, pin: Pin, at: real, inFlight: set<RequestId>, bystanders: set<RequestId>)

  /** One lease as affinity sees it. `failed` says a request failed since the last pin was set. */
  datatype Lane = Lane(
    generation: nat, pin: Option<Pin>, inFlight: set<RequestId>, seen: set<RequestId>, lookedUp: set<RequestId>,
    pinNumber: nat, bystanders: set<RequestId>, failed: bool, uses: seq<Use>)

  const IDLE := Lane(0, None, {}, {}, {}, 0, {}, false, [])

  datatype Event =
    | Begin(request: RequestId)
    | Lookup(request: RequestId, at: real)
    | End(request: RequestId, outcome: Outcome, wish: Option<FreshPin>, at: real)

  /** Each request begins once, is looked up at most once, and ends once. */
  predicate Enabled(l: Lane, ev: Event) {
    match ev
    case Begin(r) => r !in l.seen
    case Lookup(r, _) => r in l.inFlight && r !in l.lookedUp
    case End(r, _, _, _) => r in l.inFlight
  }

  function Step(l: Lane, ev: Event): Lane {
    match ev
    case Begin(r) =>
      l.(generation := l.generation + 1, inFlight := l.inFlight + {r}, seen := l.seen + {r})
    case Lookup(r, at) =>
      l.(pin := AfterLookup(l.pin, l.generation, at), lookedUp := l.lookedUp + {r},
         uses := if ServedRoute(l.pin, l.generation, at).Some?
                 then l.uses + [Use(l.pinNumber, r, l.generation, l.pin.value, at, l.inFlight, l.bystanders)]
                 else l.uses)
    case End(r, outcome, wish, at) =>
      var rest := l.(pin := AfterReconcile(l.pin, l.generation, outcome, wish, at), inFlight := l.inFlight - {r});
      if outcome == Failed then rest.(failed := true)
      else if wish.Some? then rest.(pinNumber := l.pinNumber + 1, bystanders := rest.inFlight, failed := false)
      else rest
  }

  predicate IsRun(l: Lane, run: seq<Event>)
    decreases |run|
  {
    run == [] || (Enabled(l, run[0]) && IsRun(Step(l, run[0]), run[1..]))
  }

  function Exec(l: Lane, run: seq<Event>): Lane
    decreases |run|
  {
    if run == [] then l else Exec(Step(l, run[0]), run[1..])
  }

  /** At most one request of the lease is in flight at any time. */
  predicate NoOverlap(l: Lane, run: seq<Event>)
    decreases |run|
  {
    run == [] || ((run[0].Begin? ==> l.inFlight == {}) && NoOverlap(Step(l, run[0]), run[1..]))
  }

  // -- every run --------------------------------------------------------------

  /** Of two uses of one pin: two requests, and the first either still is in flight at the second use or already was
      when the pin was set. */
  predicate OnlyAcrossOverlap(first: Use, second: Use) {
    && first.user != second.user
    && (first.user in second.inFlight || first.user in second.bystanders)
  }

  predicate UsesInv(l: Lane) {
    && (forall i, j | 0 <= i < j < |l.uses| && l.uses[i].pinNumber == l.uses[j].pinNumber ::
          OnlyAcrossOverlap(l.uses[i], l.uses[j]))
    && (forall i | 0 <= i < |l.uses| ::
          && l.uses[i].pinNumber <= l.pinNumber && l.uses[i].user in l.lookedUp
          && l.uses[i].pin.generation <= l.uses[i].userGeneration && l.uses[i].at < l.uses[i].pin.expiresAt)
  }

  predicate PinInv(l: Lane) {
    l.pin.Some? ==>
      && !l.failed
      && l.pin.value.generation <= l.generation
      && (l.pin.value.generation == l.generation ==> l.inFlight <= l.bystanders)
      && (forall i | 0 <= i < |l.uses| && l.uses[i].pinNumber == l.pinNumber ::
            l.uses[i].user in l.inFlight || l.uses[i].user in l.bystanders)
  }

  predicate LaneInv(l: Lane) {
    && UsesInv(l) && PinInv(l)
    && l.inFlight <= l.seen && l.lookedUp <= l.seen
  }

  lemma StepKeepsLane(l: Lane, ev: Event)
    requires LaneInv(l) && Enabled(l, ev)
    ensures LaneInv(Step(l, ev))
  {
    match ev
    case Begin(_) =>
    case Lookup(r, at) =>
      if ServedRoute(l.pin, l.generation, at).Some? {
        OneMoreUse(l, Use(l.pinNumber, r, l.generation, l.pin.value, at, l.inFlight, l.bystanders));
      }
    case End(_, _, _, _) =>
  }

  lemma OneMoreUse(l: Lane, use: Use)
    requires LaneInv(l) && use.user in l.inFlight && use.user !in l.lookedUp && l.pin == Some(use.pin)
    requires use == Use(l.pinNumber, use.user, l.generation, use.pin, use.at, l.inFlight, l.bystanders)
    requires Servable(use.pin, l.generation, use.at)
    ensures LaneInv(l.(lookedUp := l.lookedUp + {use.user}, uses := l.uses + [use]))
  {
  }

  lemma {:induction false} RunKeepsLane(l: Lane, run: seq<Event>)
    requires LaneInv(l) && IsRun(l, run)
    ensures LaneInv(Exec(l, run))
    decreases |run|
  {
    if run != [] {
      StepKeepsLane(l, run[0]);
      RunKeepsLane(Step(l, run[0]), run[1..]);
    }
  }

  /** In every interleaving: a pin is handed out before its expiry and never after a failure; its generation never
      exceeds the lease's, so the registry's generation-reset branch is dead; and only overlapping requests can share
      a pin. */
  lemma PinsAreFreshAndSharedOnlyAcrossOverlap(run: seq<Event>)
    requires IsRun(IDLE, run)
    ensures var l := Exec(IDLE, run);
            && (l.pin.Some? ==> l.pin.value.generation <= l.generation && !l.failed)
            && (forall i | 0 <= i < |l.uses| :: l.uses[i].at < l.uses[i].pin.expiresAt)
            && (forall i, j | 0 <= i < j < |l.uses| && l.uses[i].pinNumber == l.uses[j].pinNumber ::
                  OnlyAcrossOverlap(l.uses[i], l.uses[j]))
  {
    RunKeepsLane(IDLE, run);
  }

  // -- runs without overlap ---------------------------------------------------

  predicate SequentialInv(l: Lane) {
    && LaneInv(l)
    && l.bystanders == {}
    && (forall r, q | r in l.inFlight && q in l.inFlight :: r == q)
    && (l.pin.Some? ==> l.generation == l.pin.value.generation + if l.inFlight == {} then 0 else 1)
    && (forall i | 0 <= i < |l.uses| ::
          && l.uses[i].userGeneration == l.uses[i].pin.generation + 1
          && l.uses[i].inFlight == {l.uses[i].user} && l.uses[i].bystanders == {})
  }

  lemma StepKeepsSequential(l: Lane, ev: Event)
    requires SequentialInv(l) && Enabled(l, ev) && (ev.Begin? ==> l.inFlight == {})
    ensures SequentialInv(Step(l, ev))
  {
    StepKeepsLane(l, ev);
    if ev.Lookup? {
      assert l.inFlight == {ev.request};
    } else if ev.End? {
      assert l.inFlight == {ev.request};
    }
  }

  lemma {:induction false} RunKeepsSequential(l: Lane, run: seq<Event>)
    requires SequentialInv(l) && IsRun(l, run) && NoOverlap(l, run)
    ensures SequentialInv(Exec(l, run))
    decreases |run|
  {
    if run != [] {
      StepKeepsSequential(l, run[0]);
      RunKeepsSequential(Step(l, run[0]), run[1..]);
    }
  }

  /** Requests of one lease that do not overlap use every pin at most once, and only the very next request does. */
  lemma PinIsUsedAtMostOnceByTheNextRequest(run: seq<Event>)
    requires IsRun(IDLE, run) && NoOverlap(IDLE, run)
    ensures var uses := Exec(IDLE, run).uses;
            && (forall i, j | 0 <= i < j < |uses| :: uses[i].pinNumber != uses[j].pinNumber)
            && (forall i | 0 <= i < |uses| :: uses[i].userGeneration == uses[i].pin.generation + 1)
  {
    RunKeepsSequential(IDLE, run);
  }

  /** A failure hands nothing on: until another pin is set, nothing is served. */
  lemma NothingIsServedAfterAFailure(run: seq<Event>, r: RequestId, at: real)
    requires IsRun(IDLE, run) && Exec(IDLE, run).failed && Enabled(Exec(IDLE, run), Lookup(r, at))
    ensures Step(Exec(IDLE, run), Lookup(r, at)).uses == Exec(IDLE, run).uses
  {
    RunKeepsLane(IDLE, run);
  }

  // -- exactly when a pin is handed out ---------------------------------------

  function Begins(run: seq<Event>): nat {
    if run == [] then 0 else Begins(run[..|run| - 1]) + if run[|run| - 1].Begin? then 1 else 0
  }

  /** The event sets a pin. */
  predicate Sets(ev: Event) {
    ev.End? && ev.outcome != Failed && ev.wish.Some?
  }

  function PinSet(run: seq<Event>, k: nat): Pin
    requires k < |run| && Sets(run[k])
  {
    Pin(run[k].wish.value.route, run[k].at + Max(run[k].wish.value.lifetime, 0.0), Begins(run[..k]))
  }

  /** The later event j ends the pin set at k: a lookup at or past its expiry, a failure, another pin, or the end of a
      request once a newer one has begun. */
  predicate Spends(run: seq<Event>, k: nat, j: nat)
    requires k < j < |run| && Sets(run[k])
  {
    match run[j]
    case Begin(_) => false
    case Lookup(_, at) => at >= PinSet(run, k).expiresAt
    case End(_, outcome, wish, _) => outcome == Failed || wish.Some? || exists b | k < b < j :: run[b].Begin?
  }

  predicate Outstanding(run: seq<Event>, k: nat) {
    k < |run| && Sets(run[k]) && forall j | k < j < |run| :: !Spends(run, k, j)
  }

  predicate LookedUpSince(run: seq<Event>, k: nat) {
    exists j | k < j < |run| :: run[j].Lookup?
  }

  predicate IsUsed(l: Lane) {
    exists i | 0 <= i < |l.uses| :: l.uses[i].pinNumber == l.pinNumber
  }

  /** The lane holds a pin exactly when one is outstanding, and it is that pin; it was used exactly when somebody has
      looked it up. */
  ghost predicate Tracks(l: Lane, run: seq<Event>) {
    && l.generation == Begins(run)
    && (forall k: nat | Outstanding(run, k) :: l.pin == Some(PinSet(run, k)) && (IsUsed(l) <==> LookedUpSince(run, k)))
    && (l.pin.Some? ==> exists k: nat :: Outstanding(run, k))
  }

  lemma {:induction false} LastEvent(l: Lane, run: seq<Event>, ev: Event)
    requires IsRun(l, run + [ev])
    ensures IsRun(l, run) && Enabled(Exec(l, run), ev) && Exec(l, run + [ev]) == Step(Exec(l, run), ev)
    decreases |run|
  {
    var longer := run + [ev];
    if run == [] {
      assert longer[1..] == [];
    } else {
      assert longer[0] == run[0] && longer[1..] == run[1..] + [ev];
      LastEvent(Step(l, run[0]), run[1..], ev);
    }
  }

  lemma {:induction false} OneMoreEvent(l: Lane, run: seq<Event>, ev: Event)
    requires IsRun(l, run) && Enabled(Exec(l, run), ev)
    ensures IsRun(l, run + [ev]) && Exec(l, run + [ev]) == Step(Exec(l, run), ev)
    decreases |run|
  {
    var longer := run + [ev];
    if run == [] {
      assert longer[1..] == [];
    } else {
      assert longer[0] == run[0] && longer[1..] == run[1..] + [ev];
      OneMoreEvent(Step(l, run[0]), run[1..], ev);
    }
  }

  /** A pin outstanding after one more event is the one that event set, or one outstanding before that it did not end. */
  lemma OutstandingOneMore(run: seq<Event>, ev: Event, k: nat)
    requires k < |run| && Sets(run[k])
    ensures var longer := run + [ev];
            && PinSet(longer, k) == PinSet(run, k)
            && (Outstanding(longer, k) <==> Outstanding(run, k) && !Spends(longer, k, |run|))
            && (LookedUpSince(longer, k) <==> LookedUpSince(run, k) || ev.Lookup?)
  {
    var longer := run + [ev];
    assert longer[..k] == run[..k];
    forall j | k < j < |run|
      ensures Spends(longer, k, j) <==> Spends(run, k, j)
    {
      assert forall b | k < b < j :: longer[b] == run[b];
    }
    assert longer[|run|] == ev;
    assert forall j | k < j < |run| :: longer[j] == run[j];
  }

  /** Since a pin was set the generation has moved exactly when a request has begun. */
  lemma {:induction false} BeginsSince(run: seq<Event>, k: nat)
    requires k < |run| && !run[k].Begin?
    ensures Begins(run) >= Begins(run[..k])
    ensures Begins(run) > Begins(run[..k]) <==> exists b | k < b < |run| :: run[b].Begin?
  {
    var n := |run| - 1;
    if k < n {
      assert run[..n][..k] == run[..k];
      BeginsSince(run[..n], k);
      assert forall b | k < b < n :: run[..n][b] == run[b];
    } else {
      assert run[..k] == run[..n];
    }
  }

  lemma TracksOneMore(l: Lane, run: seq<Event>, ev: Event)
    requires LaneInv(l) && Tracks(l, run) && Enabled(l, ev)
    ensures Tracks(Step(l, ev), run + [ev])
  {
    var longer, next := run + [ev], Step(l, ev);
    assert longer[..|run|] == run;
    forall k: nat | Outstanding(longer, k)
      ensures next.pin == Some(PinSet(longer, k)) && (IsUsed(next) <==> LookedUpSince(longer, k))
    {
      if k < |run| {
        PinStays(l, run, ev, k);
      } else {
        assert forall i | 0 <= i < |next.uses| :: next.uses[i].pinNumber <= l.pinNumber;
      }
    }
    if next.pin.Some? {
      if Sets(ev) {
        assert Outstanding(longer, |run|);
      } else {
        var k: nat :| Outstanding(run, k);
        OutstandingOneMore(run, ev, k);
        BeginsSince(run, k);
        assert Outstanding(longer, k);
      }
    }
  }

  lemma PinStays(l: Lane, run: seq<Event>, ev: Event, k: nat)
    requires LaneInv(l) && Tracks(l, run) && Enabled(l, ev) && k < |run| && Outstanding(run + [ev], k)
    ensures Step(l, ev).pin == Some(PinSet(run + [ev], k))
    ensures IsUsed(Step(l, ev)) <==> LookedUpSince(run + [ev], k)
  {
    OutstandingOneMore(run, ev, k);
    BeginsSince(run, k);
    assert Outstanding(run, k);
    var longer, next := run + [ev], Step(l, ev);
    assert !Spends(longer, k, |run|) && longer[|run|] == ev;
    assert forall b | k < b < |run| :: longer[b] == run[b];
    assert next.pinNumber == l.pinNumber;
    if ev.Lookup? {
      assert next.uses == l.uses + [next.uses[|l.uses|]];
      assert next.uses[|l.uses|].pinNumber == next.pinNumber;
    }
  }

  lemma {:induction false} RunTracks(run: seq<Event>)
    requires IsRun(IDLE, run)
    ensures Tracks(Exec(IDLE, run), run)
    decreases |run|
  {
    if run != [] {
      var past, ev := run[..|run| - 1], run[|run| - 1];
      assert run == past + [ev];
      LastEvent(IDLE, past, ev);
      RunTracks(past);
      RunKeepsLane(IDLE, past);
      TracksOneMore(Exec(IDLE, past), past, ev);
    }
  }

  /** The lookup is handed a route. */
  predicate Served(l: Lane, at: real) {
    ServedRoute(l.pin, l.generation, at).Some?
  }

  /** Exactly when a lookup is handed a pin, in every interleaving: one was set, it has not expired, and since it was set
      nobody looked at or past its expiry, no request failed, no other pin was set, and no request ended once a newer one
      had begun. */
  lemma PinIsHandedOutExactly(run: seq<Event>, at: real)
    requires IsRun(IDLE, run)
    ensures Served(Exec(IDLE, run), at) <==> exists k: nat :: Outstanding(run, k) && at < PinSet(run, k).expiresAt
    ensures forall k: nat | Outstanding(run, k) && at < PinSet(run, k).expiresAt ::
              ServedRoute(Exec(IDLE, run).pin, Exec(IDLE, run).generation, at) == Some(PinSet(run, k).route)
  {
    RunTracks(run);
    RunKeepsLane(IDLE, run);
  }

  /** And exactly when it is handed a pin that another request already had: somebody looked this pin up since it was set. */
  lemma PinIsSharedExactly(run: seq<Event>, at: real)
    requires IsRun(IDLE, run)
    ensures Served(Exec(IDLE, run), at) && IsUsed(Exec(IDLE, run)) <==>
              exists k: nat :: Outstanding(run, k) && at < PinSet(run, k).expiresAt && LookedUpSince(run, k)
  {
    PinIsHandedOutExactly(run, at);
    RunTracks(run);
  }

  // -- overlap ----------------------------------------------------------------

  /** A second request that begins while the first is in flight gets the same pin. */
  function Shared(): seq<Event> {
    [Begin(0), End(0, MissRebuilt, Some(FreshPin("a", 300.0)), 0.0), Begin(1), Lookup(1, 1.0), Begin(2), Lookup(2, 2.0)]
  }

  lemma OverlapSharesAPin()
    ensures IsRun(IDLE, Shared())
    ensures var uses := Exec(IDLE, Shared()).uses;
            |uses| == 2 && uses[0].pinNumber == uses[1].pinNumber && uses[0].user != uses[1].user
  {
    var run := Shared();
    var l1 := Step(IDLE, run[0]);
    var l2 := Step(l1, run[1]);
    var l3 := Step(l2, run[2]);
    var l4 := Step(l3, run[3]);
    var l5 := Step(l4, run[4]);
    assert run[1..][1..][1..][1..][1..] == run[5..];
    assert run[1..][1..][1..][1..] == run[4..];
    assert run[1..][1..][1..] == run[3..];
    assert run[1..][1..] == run[2..];
    assert run[6..] == [];
    assert run[5..][1..] == [];
  }
}
