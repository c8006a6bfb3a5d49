/** What the topology counters count (topology.py), on the fields of stored requests and churn rows. */
module TopologyLaws {
  import opened Wrappers
  import opened ChurnDiagnosis
  import opened Topology

  // -- counting ---------------------------------------------------------------

  /** How many of the pairs have a property. */
  function Count(pairs: seq<Pair>, holds: Pair -> bool): nat {
    if pairs == [] then 0
    else Count(pairs[..|pairs| - 1], holds) + if holds(pairs[|pairs| - 1]) then 1 else 0
  }

  /** The summed weight of the pairs. */
  function Sum(pairs: seq<Pair>, weight: Pair -> nat): nat {
    if pairs == [] then 0 else Sum(pairs[..|pairs| - 1], weight) + weight(pairs[|pairs| - 1])
  }

  predicate IsPromptLayer(layer: Layer) {
    !layer.Route? && !layer.Model? && !layer.CacheKey?
  }

  // -- verdicts ---------------------------------------------------------------

  /** Exactly when the four sub-layers get a verdict, and which: a layer is reported as changed exactly when it is the one
      the row blames; it is decided when the parent hashes are present and equal, or when the row blames a content layer
      other than the earlier sibling, behind which this one may have moved as well. */
  lemma VerdictsExactly(systemA: Option<Digest>, systemB: Option<Digest>, historyA: Option<Digest>, historyB: Option<Digest>,
                        first: Option<Layer>)
    ensures var (prefix, suffix) := SystemStatus(systemA, systemB, first);
            var (body, tail) := HistoryStatus(historyA, historyB, first);
            var blamed := first.Some? && IsPromptLayer(first.value);
            var sameSystem, sameHistory := systemA.Some? && systemA == systemB, historyA.Some? && historyA == historyB;
            && (prefix.Some? <==> blamed || sameSystem) && (prefix == Some(true) <==> first == Some(SystemPrefix))
            && (suffix.Some? <==> (blamed && first != Some(SystemPrefix)) || sameSystem)
            && (suffix == Some(true) <==> first == Some(SystemSuffix))
            && (body.Some? <==> blamed || sameHistory) && (body == Some(true) <==> first == Some(HistoryBody))
            && (tail.Some? <==> (blamed && first != Some(HistoryBody)) || sameHistory)
            && (tail == Some(true) <==> first == Some(HistoryTail))
  {
  }

  // -- per pair ---------------------------------------------------------------

  predicate BothThere<T>(a: Option<T>, b: Option<T>) {
    a.Some? && b.Some?
  }

  predicate Moves<T(==)>(a: Option<T>, b: Option<T>) {
    a.Some? && b.Some? && a.value != b.value
  }

  predicate Stays<T(==)>(a: Option<T>, b: Option<T>) {
    a.Some? && b.Some? && a.value == b.value
  }

  /** The layer the pair's churn row blames. */
  function BlamedBy(p: Pair): Option<Layer> {
    match p.churn
    case None => None
    case Some(row) => row.firstDivergent
  }

  predicate Blames(p: Pair, layer: Layer) {
    BlamedBy(p) == Some(layer)
  }

  /** The row blames one of the five content layers. */
  predicate BlamesContent(p: Pair) {
    BlamedBy(p).Some? && IsPromptLayer(BlamedBy(p).value)
  }

  function LossOf(p: Pair): nat {
    match p.churn
    case None => 0
    case Some(row) => row.loss.UnwrapOr(0)
  }

  /** The fingerprint moved and none of system prompt, tools, history, route and model did. */
  predicate OnlyTheKeyMoved(a: StoredRequest, b: StoredRequest) {
    && a.fingerprint != b.fingerprint && a.model == b.model
    && !Moves(a.systemHash, b.systemHash) && !Moves(a.toolsHash, b.toolsHash) && !Moves(a.historyHash, b.historyHash)
    && !Moves(a.routeHash, b.routeHash)
  }

  /** The pair is one for this layer's counters. */
  predicate Decides(p: Pair, layer: Layer) {
    var a, b := p.previous, p.current;
    match layer
    case Tools => BothThere(a.toolsHash, b.toolsHash)
    case Route => BothThere(a.routeHash, b.routeHash)
    case Model => true
    case CacheKey => a.fingerprint != b.fingerprint
    case SystemPrefix => Stays(a.systemHash, b.systemHash) || BlamesContent(p)
    case SystemSuffix => Stays(a.systemHash, b.systemHash) || (BlamesContent(p) && !Blames(p, SystemPrefix))
    case HistoryBody => Stays(a.historyHash, b.historyHash) || BlamesContent(p)
    case HistoryTail => Stays(a.historyHash, b.historyHash) || (BlamesContent(p) && !Blames(p, HistoryBody))
  }

  /** The pair counts as a change of this layer. */
  predicate Changes(p: Pair, layer: Layer) {
    var a, b := p.previous, p.current;
    match layer
    case Tools => Moves(a.toolsHash, b.toolsHash)
    case Route => Moves(a.routeHash, b.routeHash)
    case Model => a.model != b.model
    case CacheKey => OnlyTheKeyMoved(a, b)
    case _ => Blames(p, layer)
  }

  lemma StatusExactly(p: Pair, layer: Layer)
    ensures StatusOf(p, layer).Some? <==> Decides(p, layer)
    ensures StatusOf(p, layer) == Some(true) <==> Changes(p, layer)
  {
    var a, b := p.previous, p.current;
    VerdictsExactly(a.systemHash, b.systemHash, a.historyHash, b.historyHash, p.FirstDivergent());
  }

  /** For every list of pairs and every layer, what is counted. */
  lemma {:induction false} CountersExactly(pairs: seq<Pair>, layer: Layer)
    requires layer in LAYERS
    ensures Tally(pairs).layers[layer].pairs == Count(pairs, (p: Pair) => Decides(p, layer))
    ensures Tally(pairs).layers[layer].changes == Count(pairs, (p: Pair) => Changes(p, layer))
  {
    if pairs != [] {
      var past, p := pairs[..|pairs| - 1], pairs[|pairs| - 1];
      CountersExactly(past, layer);
      CountersAfterPair(Tally(past), p, layer);
      StatusExactly(p, layer);
      assert Tally(pairs) == AfterPair(Tally(past), p);
    }
  }

  /** The whole-report counters: moved fingerprints, and moved parents nobody attributed to one of their parts. */
  lemma {:induction false} TotalsExactly(pairs: seq<Pair>)
    ensures Tally(pairs).totalPairs == |pairs|
    ensures Tally(pairs).churnPairs == Count(pairs, (p: Pair) => p.previous.fingerprint != p.current.fingerprint)
    ensures Tally(pairs).gaps ==
            Count(pairs, (p: Pair) => && (Moves(p.previous.systemHash, p.current.systemHash) || Moves(p.previous.historyHash, p.current.historyHash))
                              && !Blames(p, SystemPrefix) && !Blames(p, SystemSuffix)
                              && !Blames(p, HistoryBody) && !Blames(p, HistoryTail))
  {
    if pairs != [] {
      TotalsExactly(pairs[..|pairs| - 1]);
    }
  }

  function LossOn(p: Pair, layer: Layer): nat {
    if Blames(p, layer) && IsPromptLayer(layer) then LossOf(p) else 0
  }

  function LossOnNone(p: Pair): nat {
    if BlamesContent(p) then 0 else LossOf(p)
  }

  lemma PromptLayers(layer: Layer)
    ensures layer in CONTENT_LAYERS <==> IsPromptLayer(layer)
  {
  }

  lemma LossIsBooked(stats: LayerStats, p: Pair, layer: Layer)
    ensures WithLoss(stats, p, layer).loss == stats.loss + LossOn(p, layer)
  {
    PromptLayers(layer);
  }

  lemma LossIsNotBooked(p: Pair)
    ensures UnattributedLoss(p) == LossOnNone(p)
  {
    if BlamedBy(p).Some? {
      PromptLayers(BlamedBy(p).value);
    }
  }

  lemma LossesOfOnePair(r: Report, p: Pair, layer: Layer)
    requires HasAllLayers(r) && layer in LAYERS
    ensures AfterPair(r, p).layers[layer].loss == r.layers[layer].loss + LossOn(p, layer)
    ensures AfterPair(r, p).unattributedLoss == r.unattributedLoss + LossOnNone(p)
  {
    LossIsBooked(Counted(r.layers[layer], StatusOf(p, layer)), p, layer);
    LossIsNotBooked(p);
    assert Counted(r.layers[layer], StatusOf(p, layer)).loss == r.layers[layer].loss;
  }

  /** A loss is booked on the layer its row blames, if that is one of the five of the prompt, and else on no layer. */
  lemma {:induction false} LossesExactly(pairs: seq<Pair>, layer: Layer)
    requires layer in LAYERS
    ensures Tally(pairs).layers[layer].loss == Sum(pairs, p => LossOn(p, layer))
    ensures Tally(pairs).unattributedLoss == Sum(pairs, p => LossOnNone(p))
  {
    if pairs != [] {
      LossesExactly(pairs[..|pairs| - 1], layer);
      LossesOfOnePair(Tally(pairs[..|pairs| - 1]), pairs[|pairs| - 1], layer);
    }
  }

  // -- the tool table ---------------------------------------------------------

  /** Both tool lists and both tool sets are known. */
  predicate ToolsKnown(a: StoredRequest, b: StoredRequest) {
    a.toolsHash.Some? && b.toolsHash.Some? && a.toolsSetHash.Some? && b.toolsSetHash.Some?
  }

  /** The pair belongs to a route: that of its later request if known, else that of its earlier one. */
  predicate OnRoute(a: StoredRequest, b: StoredRequest, route: Option<nat>) {
    route == if b.routeHash.Some? then b.routeHash else a.routeHash
  }

  /** The row of one route, zeros when it has none. */
  function RowOf(tools: map<Option<nat>, ToolStats>, route: Option<nat>): ToolStats {
    if route in tools then tools[route] else ToolStats(0, 0, 0)
  }

  predicate ToolPair(p: Pair, route: Option<nat>) {
    ToolsKnown(p.previous, p.current) && OnRoute(p.previous, p.current, route)
  }

  /** Another list of the same set of tools. */
  predicate IsPermutation(a: StoredRequest, b: StoredRequest) {
    Moves(a.toolsHash, b.toolsHash) && Stays(a.toolsSetHash, b.toolsSetHash)
  }

  /** Another list, of another set of tools. */
  predicate IsSetChange(a: StoredRequest, b: StoredRequest) {
    Moves(a.toolsHash, b.toolsHash) && Moves(a.toolsSetHash, b.toolsSetHash)
  }

  /** A route has a row exactly when it has a known pair, and the row counts its permutations and its set changes. */
  lemma {:induction false} ToolTableExactly(pairs: seq<Pair>, route: Option<nat>)
    ensures var row := RowOf(Tally(pairs).tools, route);
            && row.pairs == Count(pairs, p => ToolPair(p, route))
            && row.permutations ==
               Count(pairs, (p: Pair) => IsPermutation(p.previous, p.current) && OnRoute(p.previous, p.current, route))
            && row.setChanges ==
               Count(pairs, (p: Pair) => IsSetChange(p.previous, p.current) && OnRoute(p.previous, p.current, route))
            && (route in Tally(pairs).tools <==> row.pairs > 0)
  {
    if pairs != [] {
      ToolTableExactly(pairs[..|pairs| - 1], route);
      var p := pairs[|pairs| - 1];
      assert ToolPair(p, route) <==> ToolsDecidable(p) && ToolRoute(p) == route;
    }
  }

  // -- which pairs are counted ------------------------------------------------

  /** Row ids are unique. */
  predicate DistinctIds(requests: seq<StoredRequest>) {
    forall i, j | 0 <= i < j < |requests| :: requests[i].id != requests[j].id
  }

  /** b is the next request of a's session. */
  predicate IsNext(requests: seq<StoredRequest>, a: StoredRequest, b: StoredRequest) {
    && a in requests && b in requests && a.session == b.session && a.id < b.id
    && forall r | r in requests && r.session == a.session :: r.id <= a.id || b.id <= r.id
  }

  /** The pair carries the row its session and its two fingerprints have in the index, if any. */
  predicate IsAttributed(index: ChurnIndex, p: Pair) {
    var key := (p.previous.session, p.previous.fingerprint, p.current.fingerprint);
    p.churn == if key in index then Some(index[key]) else None
  }

  /** No pair twice: no two pairs end in the same request. */
  predicate NoTwice(pairs: seq<Pair>) {
    forall i, j | 0 <= i < j < |pairs| :: pairs[i].current != pairs[j].current
  }

  predicate IncreasingStrictly(s: seq<StoredRequest>) {
    forall i, j | 0 <= i < j < |s| :: s[i].id < s[j].id
  }

  predicate OneSession(s: seq<StoredRequest>, session: Option<nat>) {
    forall r | r in s :: r.session == session
  }

  lemma {:induction false} PairsOfAt(index: ChurnIndex, ordered: seq<StoredRequest>, k: nat)
    requires k + 1 < |ordered|
    ensures PairsOf(index, ordered)[k] == PairOf(index, ordered[k], ordered[k + 1])
  {
    if k + 2 < |ordered| {
      PairsOfAt(index, ordered[..|ordered| - 1], k);
    }
  }

  lemma NeighbourIsNext(ordered: seq<StoredRequest>, session: Option<nat>, k: nat)
    requires IncreasingStrictly(ordered) && OneSession(ordered, session) && k + 1 < |ordered|
    ensures IsNext(ordered, ordered[k], ordered[k + 1])
  {
  }

  lemma NextIsNeighbour(ordered: seq<StoredRequest>, session: Option<nat>, a: StoredRequest, b: StoredRequest) returns (k: nat)
    requires IncreasingStrictly(ordered) && OneSession(ordered, session) && IsNext(ordered, a, b)
    ensures k + 1 < |ordered| && ordered[k] == a && ordered[k + 1] == b
  {
    k :| 0 <= k < |ordered| && ordered[k] == a;
    var j :| 0 <= j < |ordered| && ordered[j] == b;
    assert k < j;
    assert ordered[k + 1] in ordered;
  }

  lemma NeighboursOnce(index: ChurnIndex, ordered: seq<StoredRequest>)
    requires IncreasingStrictly(ordered)
    ensures NoTwice(PairsOf(index, ordered))
  {
    var pairs := PairsOf(index, ordered);
    forall i, j | 0 <= i < j < |pairs|
      ensures pairs[i].current != pairs[j].current
    {
      PairsOfAt(index, ordered, i);
      PairsOfAt(index, ordered, j);
      assert ordered[i + 1].id < ordered[j + 1].id;
    }
  }

  /** The pairs of one session's ordered requests are the neighbours in it. */
  lemma PairsAreNeighbours(index: ChurnIndex, ordered: seq<StoredRequest>, session: Option<nat>, p: Pair)
    requires IncreasingStrictly(ordered) && OneSession(ordered, session)
    ensures p in PairsOf(index, ordered) <==> IsNext(ordered, p.previous, p.current) && IsAttributed(index, p)
  {
    var pairs := PairsOf(index, ordered);
    if p in pairs {
      var k: nat :| k < |pairs| && pairs[k] == p;
      PairsOfAt(index, ordered, k);
      NeighbourIsNext(ordered, session, k);
    }
    if IsNext(ordered, p.previous, p.current) && IsAttributed(index, p) {
      var k := NextIsNeighbour(ordered, session, p.previous, p.current);
      PairsOfAt(index, ordered, k);
      assert pairs[k] == p;
    }
  }

  lemma {:induction false} OfSessionExactly(requests: seq<StoredRequest>, session: Option<nat>)
    ensures forall r :: r in OfSession(requests, session) <==> r in requests && r.session == session
    ensures DistinctIds(requests) ==> DistinctIds(OfSession(requests, session))
  {
    if requests != [] {
      OfSessionExactly(requests[1..], session);
      assert forall r | r in OfSession(requests[1..], session) :: r in requests[1..];
      assert requests == [requests[0]] + requests[1..];
      if DistinctIds(requests) {
        assert forall r | r in requests[1..] :: r.id != requests[0].id;
        DistinctPrepended(requests[0], OfSession(requests[1..], session));
      }
    }
  }

  lemma DistinctPrepended(r: StoredRequest, s: seq<StoredRequest>)
    requires DistinctIds(s) && forall e | e in s :: e.id != r.id
    ensures DistinctIds([r] + s)
  {
  }

  lemma SortedStrictly(s: seq<StoredRequest>)
    requires DistinctIds(s)
    ensures IncreasingStrictly(SortedById(s))
    ensures forall r :: r in SortedById(s) <==> r in s
  {
    var sorted := SortedById(s);
    SortedByIdIsASortedPermutation(s);
    assert forall r :: r in sorted <==> r in multiset(sorted);
    forall i, j | 0 <= i < j < |sorted|
      ensures sorted[i].id < sorted[j].id
    {
      if sorted[i].id == sorted[j].id {
        TwiceInASequence(sorted, i, j);
        OnceInASequence(s, sorted[i]);
        assert sorted[i] in sorted && sorted[j] in sorted;
        SameIdSameRequest(s, sorted[i], sorted[j]);
        assert false;
      }
    }
  }

  lemma SameIdSameRequest(s: seq<StoredRequest>, a: StoredRequest, b: StoredRequest)
    requires DistinctIds(s) && a in s && b in s && a.id == b.id
    ensures a == b
  {
  }

  lemma TwiceInASequence(s: seq<StoredRequest>, i: nat, j: nat)
    requires i < j < |s|
    ensures s[i] == s[j] ==> multiset(s)[s[i]] >= 2
  {
    assert s == s[..j] + [s[j]] + s[j + 1..];
    assert s[i] == s[..j][i];
  }

  lemma {:induction false} OnceInASequence(s: seq<StoredRequest>, r: StoredRequest)
    requires DistinctIds(s)
    ensures multiset(s)[r] <= 1
  {
    if s != [] {
      OnceInASequence(s[1..], r);
      assert s == [s[0]] + s[1..];
      assert s[0] == r ==> r !in s[1..];
    }
  }

  /** One session of the store. */
  lemma SessionPairs(index: ChurnIndex, requests: seq<StoredRequest>, session: Option<nat>, p: Pair)
    requires DistinctIds(requests)
    ensures NoTwice(PairsOf(index, SortedById(OfSession(requests, session))))
    ensures p in PairsOf(index, SortedById(OfSession(requests, session))) <==>
              IsNext(requests, p.previous, p.current) && p.current.session == session && IsAttributed(index, p)
  {
    var own := OfSession(requests, session);
    OfSessionExactly(requests, session);
    SortedStrictly(own);
    NeighboursOnce(index, SortedById(own));
    PairsAreNeighbours(index, SortedById(own), session, p);
  }

  /** The store's report counts every request with its successor in the session, once, and with the row of its transition,
      and nothing else. */
  lemma {:induction false} PairsExactly(index: ChurnIndex, requests: seq<StoredRequest>, sessions: seq<Option<nat>>, p: Pair)
    requires DistinctIds(requests) && forall i, j | 0 <= i < j < |sessions| :: sessions[i] != sessions[j]
    ensures p in AllPairs(index, requests, sessions) <==>
              IsNext(requests, p.previous, p.current) && p.current.session in sessions && IsAttributed(index, p)
  {
    if sessions != [] {
      PairsExactly(index, requests, sessions[..|sessions| - 1], p);
      SessionPairs(index, requests, sessions[|sessions| - 1], p);
    }
  }

  lemma {:induction false} NoPairTwice(index: ChurnIndex, requests: seq<StoredRequest>, sessions: seq<Option<nat>>)
    requires DistinctIds(requests) && forall i, j | 0 <= i < j < |sessions| :: sessions[i] != sessions[j]
    ensures NoTwice(AllPairs(index, requests, sessions))
  {
    if sessions != [] {
      var before, last := sessions[..|sessions| - 1], sessions[|sessions| - 1];
      var past, own := AllPairs(index, requests, before), PairsOf(index, SortedById(OfSession(requests, last)));
      NoPairTwice(index, requests, before);
      forall p, q | p in past && q in own
        ensures p.current != q.current
      {
        PairsExactly(index, requests, before, p);
        SessionPairs(index, requests, last, q);
      }
      forall p | p in own
        ensures NoTwice(own)
      {
        SessionPairs(index, requests, last, p);
      }
      JoinedOnce(past, own);
    }
  }

  lemma JoinedOnce(a: seq<Pair>, b: seq<Pair>)
    requires NoTwice(a) && (b != [] ==> NoTwice(b)) && forall p, q | p in a && q in b :: p.current != q.current
    ensures NoTwice(a + b)
  {
    var all := a + b;
    forall i, j | 0 <= i < j < |all|
      ensures all[i].current != all[j].current
    {
      if i < |a| <= j {
        assert all[i] in a && all[j] in b;
      }
    }
  }

  // -- the counters of the store ----------------------------------------------

  /** The requests with their successors in the session that have a property. */
  ghost function Successions(requests: seq<StoredRequest>, holds: (StoredRequest, StoredRequest) -> bool)
    : set<(StoredRequest, StoredRequest)>
  {
    set a, b | a in requests && b in requests && IsNext(requests, a, b) && holds(a, b) :: (a, b)
  }

  ghost function Ends(pairs: seq<Pair>, holds: (StoredRequest, StoredRequest) -> bool): set<(StoredRequest, StoredRequest)> {
    set p | p in pairs && holds(p.previous, p.current) :: (p.previous, p.current)
  }

  lemma {:induction false} CountIsNumberOfEnds(pairs: seq<Pair>, holds: (StoredRequest, StoredRequest) -> bool)
    requires NoTwice(pairs)
    ensures Count(pairs, (p: Pair) => holds(p.previous, p.current)) == |Ends(pairs, holds)|
  {
    if pairs != [] {
      var past, p := pairs[..|pairs| - 1], pairs[|pairs| - 1];
      CountIsNumberOfEnds(past, holds);
      assert pairs == past + [p];
      var ends := (p.previous, p.current);
      assert ends !in Ends(past, holds);
      assert Ends(pairs, holds) == if holds(p.previous, p.current) then Ends(past, holds) + {ends} else Ends(past, holds);
    }
  }

  /** Any property of two requests is counted over exactly the successions of the store, each once. */
  lemma StoreCounts(index: ChurnIndex, requests: seq<StoredRequest>, sessions: seq<Option<nat>>,
                    holds: (StoredRequest, StoredRequest) -> bool)
    requires DistinctIds(requests) && ListsSessions(requests, sessions)
    ensures Count(AllPairs(index, requests, sessions), (p: Pair) => holds(p.previous, p.current))
            == |Successions(requests, holds)|
  {
    var pairs := AllPairs(index, requests, sessions);
    NoPairTwice(index, requests, sessions);
    CountIsNumberOfEnds(pairs, holds);
    forall a, b
      ensures (a, b) in Ends(pairs, holds) <==> (a, b) in Successions(requests, holds)
    {
      PairsExactly(index, requests, sessions, PairOf(index, a, b));
      if (a, b) in Ends(pairs, holds) {
        var p :| p in pairs && holds(p.previous, p.current) && (a, b) == (p.previous, p.current);
        PairsExactly(index, requests, sessions, p);
      }
    }
    assert Ends(pairs, holds) == Successions(requests, holds);
  }

  lemma {:induction false} SameCount(pairs: seq<Pair>, f: Pair -> bool, g: Pair -> bool)
    requires forall p :: f(p) == g(p)
    ensures Count(pairs, f) == Count(pairs, g)
  {
    if pairs != [] {
      SameCount(pairs[..|pairs| - 1], f, g);
    }
  }

  /** The two properties of successive requests that a layer measures. */
  ghost predicate Measures(layer: Layer, decides: (StoredRequest, StoredRequest) -> bool,
                           changes: (StoredRequest, StoredRequest) -> bool)
  {
    forall p :: Decides(p, layer) == decides(p.previous, p.current) && Changes(p, layer) == changes(p.previous, p.current)
  }

  /** A layer's counters are the numbers of successions with these properties. */
  ghost predicate CountsIn(requests: seq<StoredRequest>, stats: LayerStats,
                           decides: (StoredRequest, StoredRequest) -> bool, changes: (StoredRequest, StoredRequest) -> bool)
  {
    stats.pairs == |Successions(requests, decides)| && stats.changes == |Successions(requests, changes)|
  }

  /** A flat layer of the store: its counters are numbers of successions. */
  lemma StoreCountsLayer(index: ChurnIndex, requests: seq<StoredRequest>, sessions: seq<Option<nat>>, layer: Layer,
                         decides: (StoredRequest, StoredRequest) -> bool, changes: (StoredRequest, StoredRequest) -> bool)
    requires DistinctIds(requests) && ListsSessions(requests, sessions) && layer in LAYERS
    requires Measures(layer, decides, changes)
    ensures CountsIn(requests, Tally(AllPairs(index, requests, sessions)).layers[layer], decides, changes)
  {
    var pairs := AllPairs(index, requests, sessions);
    CountersExactly(pairs, layer);
    SameCount(pairs, p => Decides(p, layer), (p: Pair) => decides(p.previous, p.current));
    SameCount(pairs, p => Changes(p, layer), (p: Pair) => changes(p.previous, p.current));
    StoreCounts(index, requests, sessions, decides);
    StoreCounts(index, requests, sessions, changes);
  }

  predicate ToolsThere(a: StoredRequest, b: StoredRequest) {
    BothThere(a.toolsHash, b.toolsHash)
  }

  predicate ToolsMove(a: StoredRequest, b: StoredRequest) {
    Moves(a.toolsHash, b.toolsHash)
  }

  predicate RoutesThere(a: StoredRequest, b: StoredRequest) {
    BothThere(a.routeHash, b.routeHash)
  }

  predicate RouteMoves(a: StoredRequest, b: StoredRequest) {
    Moves(a.routeHash, b.routeHash)
  }

  predicate AnyTwo(a: StoredRequest, b: StoredRequest) {
    true
  }

  predicate ModelMoves(a: StoredRequest, b: StoredRequest) {
    a.model != b.model
  }

  predicate FingerprintMoves(a: StoredRequest, b: StoredRequest) {
    a.fingerprint != b.fingerprint
  }

  lemma FlatLayersMeasure()
    ensures Measures(Tools, ToolsThere, ToolsMove) && Measures(Route, RoutesThere, RouteMoves)
    ensures Measures(Model, AnyTwo, ModelMoves) && Measures(CacheKey, FingerprintMoves, OnlyTheKeyMoved)
  {
  }

  /** What the four flat layers of the stored view count. */
  lemma StoreCountersExactly(index: ChurnIndex, requests: seq<StoredRequest>, sessions: seq<Option<nat>>)
    requires DistinctIds(requests) && ListsSessions(requests, sessions)
    ensures var r := Tally(AllPairs(index, requests, sessions)).layers;
            && CountsIn(requests, r[Tools], ToolsThere, ToolsMove)
            && CountsIn(requests, r[Route], RoutesThere, RouteMoves)
            && CountsIn(requests, r[Model], AnyTwo, ModelMoves)
            && CountsIn(requests, r[CacheKey], FingerprintMoves, OnlyTheKeyMoved)
  {
    FlatLayersMeasure();
    StoreCountsLayer(index, requests, sessions, Tools, ToolsThere, ToolsMove);
    StoreCountsLayer(index, requests, sessions, Route, RoutesThere, RouteMoves);
    StoreCountsLayer(index, requests, sessions, Model, AnyTwo, ModelMoves);
    StoreCountsLayer(index, requests, sessions, CacheKey, FingerprintMoves, OnlyTheKeyMoved);
  }

  /** What the tool table of the stored view counts, route by route. */
  lemma StoreToolTableExactly(index: ChurnIndex, requests: seq<StoredRequest>, sessions: seq<Option<nat>>, route: Option<nat>)
    requires DistinctIds(requests) && ListsSessions(requests, sessions)
    ensures var row := RowOf(Tally(AllPairs(index, requests, sessions)).tools, route);
            && row.pairs == |Successions(requests, (a, b) => ToolsKnown(a, b) && OnRoute(a, b, route))|
            && row.permutations == |Successions(requests, (a, b) => IsPermutation(a, b) && OnRoute(a, b, route))|
            && row.setChanges == |Successions(requests, (a, b) => IsSetChange(a, b) && OnRoute(a, b, route))|
  {
    var pairs := AllPairs(index, requests, sessions);
    ToolTableExactly(pairs, route);
    StoreCounts(index, requests, sessions, (a, b) => ToolsKnown(a, b) && OnRoute(a, b, route));
    StoreCounts(index, requests, sessions, (a, b) => IsPermutation(a, b) && OnRoute(a, b, route));
    StoreCounts(index, requests, sessions, (a, b) => IsSetChange(a, b) && OnRoute(a, b, route));
    SameCount(pairs, p => ToolPair(p, route),
              (p: Pair) => ((a, b) => ToolsKnown(a, b) && OnRoute(a, b, route))(p.previous, p.current));
    SameCount(pairs, (p: Pair) => IsPermutation(p.previous, p.current) && OnRoute(p.previous, p.current, route),
              (p: Pair) => ((a, b) => IsPermutation(a, b) && OnRoute(a, b, route))(p.previous, p.current));
    SameCount(pairs, (p: Pair) => IsSetChange(p.previous, p.current) && OnRoute(p.previous, p.current, route),
              (p: Pair) => ((a, b) => IsSetChange(a, b) && OnRoute(a, b, route))(p.previous, p.current));
  }
}
