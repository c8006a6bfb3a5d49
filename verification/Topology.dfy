/** Prefix topology over stored requests (topology.py): consecutive pairs per session, counted layer by layer. */
module Topology {
  import opened Wrappers
  import opened ChurnDiagnosis

  const LAYERS: seq<Layer> := [SystemPrefix, SystemSuffix, Tools, HistoryBody, HistoryTail, Route, Model, CacheKey]

  datatype StoredRequest = StoredRequest(
    id: nat, session: Option<nat>, fingerprint: nat, systemHash: Option<Digest>, toolsHash: Option<Digest>,
    toolsSetHash: Option<Digest>, historyHash: Option<Digest>, routeHash: Option<nat>, model: nat)

  datatype ChurnRow = ChurnRow(
    session: Option<nat>, previous: nat, next: nat, firstDivergent: Option<Layer>, loss: Option<nat>)

  /** Two consecutive requests of one session, with the churn row that matches their fingerprints. */
  datatype Pair = Pair(previous: StoredRequest, current: StoredRequest, churn: Option<ChurnRow>)
  {
    function FirstDivergent(): Option<Layer> {
      if churn.Some? then churn.value.firstDivergent else None
    }

    function Loss(): Option<nat> {
      if churn.Some? then churn.value.loss else None
    }

    predicate Moved() {
      previous.fingerprint != current.fingerprint
    }
  }

  // -- status of one pair -----------------------------------------------------

  /** None means not decidable: a hash is missing. */
  function Diff<T(==)>(a: Option<T>, b: Option<T>): Option<bool> {
    if a.None? || b.None? then None else Some(a != b)
  }

  predicate Identical(a: Option<Digest>, b: Option<Digest>) {
    a.Some? && a == b
  }

  function SystemStatus(systemA: Option<Digest>, systemB: Option<Digest>, first: Option<Layer>): (Option<bool>, Option<bool>) {
    var same := Identical(systemA, systemB);
    if first == Some(SystemSuffix) then (Some(false), Some(true))
    else if first == Some(SystemPrefix) then (Some(true), if same then Some(false) else None)
    else if same || first in {Some(Tools), Some(HistoryBody), Some(HistoryTail)} then (Some(false), Some(false))
    else (None, None)
  }

  function HistoryStatus(historyA: Option<Digest>, historyB: Option<Digest>, first: Option<Layer>): (Option<bool>, Option<bool>) {
    var same := Identical(historyA, historyB);
    if first == Some(HistoryBody) then (Some(true), if same then Some(false) else None)
    else if first == Some(HistoryTail) then (Some(false), Some(true))
    else if same || first in {Some(SystemPrefix), Some(SystemSuffix), Some(Tools)} then (Some(false), Some(false))
    else (None, None)
  }

  /** The four attributed sub-layers, filled in the order the source does. */
  method SubLayerStatus(systemA: Option<Digest>, systemB: Option<Digest>, historyA: Option<Digest>,
                        historyB: Option<Digest>, first: Option<Layer>) returns (status: map<Layer, Option<bool>>)
    ensures status.Keys == {SystemPrefix, SystemSuffix, HistoryBody, HistoryTail}
    ensures (status[SystemPrefix], status[SystemSuffix]) == SystemStatus(systemA, systemB, first)
    ensures (status[HistoryBody], status[HistoryTail]) == HistoryStatus(historyA, historyB, first)
  {
    status := map[SystemPrefix := None, SystemSuffix := None, HistoryBody := None, HistoryTail := None];
    var systemIdentical := systemA.Some? && systemB.Some? && systemA == systemB;
    var historyIdentical := historyA.Some? && historyB.Some? && historyA == historyB;
    if systemIdentical {
      status := status[SystemPrefix := Some(false)][SystemSuffix := Some(false)];
    }
    if historyIdentical {
      status := status[HistoryBody := Some(false)][HistoryTail := Some(false)];
    }
    if first == Some(SystemSuffix) {
      status := status[SystemPrefix := Some(false)][SystemSuffix := Some(true)];
    } else if first == Some(SystemPrefix) {
      status := status[SystemPrefix := Some(true)];
    } else if first == Some(Tools) || first == Some(HistoryBody) || first == Some(HistoryTail) {
      if !systemIdentical {
        status := status[SystemPrefix := Some(false)][SystemSuffix := Some(false)];
      }
    }
    if first == Some(HistoryBody) {
      status := status[HistoryBody := Some(true)];
    } else if first == Some(HistoryTail) {
      status := status[HistoryBody := Some(false)][HistoryTail := Some(true)];
    } else if (first == Some(SystemPrefix) || first == Some(SystemSuffix) || first == Some(Tools)) && !historyIdentical {
      status := status[HistoryBody := Some(false)][HistoryTail := Some(false)];
    }
  }

  predicate FlatMoved(p: Pair) {
    || Diff(p.previous.systemHash, p.current.systemHash) == Some(true)
    || Diff(p.previous.toolsHash, p.current.toolsHash) == Some(true)
    || Diff(p.previous.historyHash, p.current.historyHash) == Some(true)
    || Diff(p.previous.routeHash, p.current.routeHash) == Some(true)
    || p.previous.model != p.current.model
  }

  /** What one pair says about one layer: changed, unchanged, or nothing. */
  function StatusOf(p: Pair, layer: Layer): Option<bool> {
    match layer
    case Tools => Diff(p.previous.toolsHash, p.current.toolsHash)
    case Route => Diff(p.previous.routeHash, p.current.routeHash)
    case Model => Some(p.previous.model != p.current.model)
    case CacheKey => if p.Moved() then Some(!FlatMoved(p)) else None
    case SystemPrefix => SystemStatus(p.previous.systemHash, p.current.systemHash, p.FirstDivergent()).0
    case SystemSuffix => SystemStatus(p.previous.systemHash, p.current.systemHash, p.FirstDivergent()).1
    case HistoryBody => HistoryStatus(p.previous.historyHash, p.current.historyHash, p.FirstDivergent()).0
    case HistoryTail => HistoryStatus(p.previous.historyHash, p.current.historyHash, p.FirstDivergent()).1
  }

  // -- the report -------------------------------------------------------------

  datatype LayerStats = LayerStats(pairs: nat, changes: nat, loss: nat)

  datatype ToolStats = ToolStats(pairs: nat, setChanges: nat, permutations: nat)

  datatype Report = Report(
    layers: map<Layer, LayerStats>, tools: map<Option<nat>, ToolStats>,
    totalPairs: nat, churnPairs: nat, unattributedLoss: nat, gaps: nat)

  const NO_LAYERS: map<Layer, LayerStats> := map l: Layer | l in LAYERS :: LayerStats(0, 0, 0)

  const EMPTY_REPORT := Report(NO_LAYERS, map[], 0, 0, 0, 0)

  predicate HasAllLayers(r: Report) {
    forall l | l in LAYERS :: l in r.layers
  }

  function Counted(stats: LayerStats, status: Option<bool>): LayerStats {
    match status
    case None => stats
    case Some(changed) => stats.(pairs := stats.pairs + 1, changes := stats.changes + if changed then 1 else 0)
  }

  predicate IsLossLayer(layer: Option<Layer>) {
    layer.Some? && layer.value in CONTENT_LAYERS
  }

  function WithLoss(stats: LayerStats, p: Pair, layer: Layer): LayerStats {
    if p.FirstDivergent() == Some(layer) && layer in CONTENT_LAYERS && p.Loss().Some?
    then stats.(loss := stats.loss + p.Loss().value) else stats
  }

  function UnattributedLoss(p: Pair): nat {
    if p.Loss().Some? && !IsLossLayer(p.FirstDivergent()) then p.Loss().value else 0
  }

  /** The system prompt or the history moved, and no row says in which part. */
  predicate IsGap(p: Pair) {
    && (Diff(p.previous.systemHash, p.current.systemHash) == Some(true)
        || Diff(p.previous.historyHash, p.current.historyHash) == Some(true))
    && p.FirstDivergent() !in {Some(SystemPrefix), Some(SystemSuffix), Some(HistoryBody), Some(HistoryTail)}
  }

  predicate ToolsDecidable(p: Pair) {
    && p.previous.toolsSetHash.Some? && p.current.toolsSetHash.Some?
    && p.previous.toolsHash.Some? && p.current.toolsHash.Some?
  }

  function ToolRoute(p: Pair): Option<nat> {
    if p.current.routeHash.Some? then p.current.routeHash else p.previous.routeHash
  }

  function ToolsAfter(tools: map<Option<nat>, ToolStats>, p: Pair): map<Option<nat>, ToolStats> {
    if !ToolsDecidable(p) then tools
    else
      var route := ToolRoute(p);
      var stats := if route in tools then tools[route] else ToolStats(0, 0, 0);
      var counted := stats.(pairs := stats.pairs + 1);
      tools[route :=
        if p.previous.toolsHash == p.current.toolsHash then counted
        else if p.previous.toolsSetHash == p.current.toolsSetHash then counted.(permutations := counted.permutations + 1)
        else counted.(setChanges := counted.setChanges + 1)]
  }

  /** The report after one more pair. */
  function AfterPair(r: Report, p: Pair): Report
    requires HasAllLayers(r)
    ensures HasAllLayers(AfterPair(r, p))
  {
    Report(
      map l: Layer | l in LAYERS :: WithLoss(Counted(r.layers[l], StatusOf(p, l)), p, l),
      ToolsAfter(r.tools, p), r.totalPairs + 1, r.churnPairs + (if p.Moved() then 1 else 0),
      r.unattributedLoss + UnattributedLoss(p), r.gaps + (if IsGap(p) then 1 else 0))
  }

  function Tally(pairs: seq<Pair>): (r: Report)
    ensures HasAllLayers(r)
  {
    if pairs == [] then EMPTY_REPORT else AfterPair(Tally(pairs[..|pairs| - 1]), pairs[|pairs| - 1])
  }

  // -- conservation -----------------------------------------------------------

  function Decided(pairs: seq<Pair>, layer: Layer): nat {
    if pairs == [] then 0
    else Decided(pairs[..|pairs| - 1], layer) + if StatusOf(pairs[|pairs| - 1], layer).Some? then 1 else 0
  }

  function Changed(pairs: seq<Pair>, layer: Layer): nat {
    if pairs == [] then 0
    else Changed(pairs[..|pairs| - 1], layer) + if StatusOf(pairs[|pairs| - 1], layer) == Some(true) then 1 else 0
  }

  /** The summed loss of the churn rows matched by the pairs. */
  function MatchedLoss(pairs: seq<Pair>): nat {
    if pairs == [] then 0 else MatchedLoss(pairs[..|pairs| - 1]) + pairs[|pairs| - 1].Loss().UnwrapOr(0)
  }

  function AttributedLoss(r: Report): nat
    requires HasAllLayers(r)
  {
    r.layers[SystemPrefix].loss + r.layers[SystemSuffix].loss + r.layers[Tools].loss
    + r.layers[HistoryBody].loss + r.layers[HistoryTail].loss
  }

  /** For every list of pairs: each layer's counters are the decidable and the changed pairs, so changes <= pairs <=
      total; the cache-key layer is decidable exactly on fingerprint moves. */
  lemma {:induction false} LayerCountersAreConserved(pairs: seq<Pair>, layer: Layer)
    requires layer in LAYERS
    ensures var r := Tally(pairs);
            && r.totalPairs == |pairs|
            && r.layers[layer].pairs == Decided(pairs, layer) && r.layers[layer].changes == Changed(pairs, layer)
            && r.layers[layer].changes <= r.layers[layer].pairs <= r.totalPairs
            && (layer == CacheKey ==> r.layers[layer].pairs == r.churnPairs)
  {
    if pairs != [] {
      var past, p := pairs[..|pairs| - 1], pairs[|pairs| - 1];
      LayerCountersAreConserved(past, layer);
      var r := Tally(past);
      CountersAfterPair(r, p, layer);
      assert Tally(pairs) == AfterPair(r, p) && AfterPair(r, p).totalPairs == r.totalPairs + 1;
      assert Decided(pairs, layer) == Decided(past, layer) + if StatusOf(p, layer).Some? then 1 else 0;
      assert Changed(pairs, layer) == Changed(past, layer) + if StatusOf(p, layer) == Some(true) then 1 else 0;
    }
  }

  /** One pair moves one layer's counters by that pair's status alone. */
  lemma CountersAfterPair(r: Report, p: Pair, layer: Layer)
    requires HasAllLayers(r) && layer in LAYERS
    ensures var next := AfterPair(r, p); var status := StatusOf(p, layer);
            && next.layers[layer].pairs == r.layers[layer].pairs + (if status.Some? then 1 else 0)
            && next.layers[layer].changes == r.layers[layer].changes + (if status == Some(true) then 1 else 0)
            && next.churnPairs == r.churnPairs + (if StatusOf(p, CacheKey).Some? then 1 else 0)
  {
  }

  predicate ToolCountersFit(tools: map<Option<nat>, ToolStats>) {
    forall route | route in tools :: tools[route].permutations + tools[route].setChanges <= tools[route].pairs
  }

  /** Per route, permutations and set changes never exceed the decidable pairs. */
  lemma {:induction false} ToolCountersAreConserved(pairs: seq<Pair>)
    ensures ToolCountersFit(Tally(pairs).tools)
  {
    if pairs != [] {
      ToolCountersAreConserved(pairs[..|pairs| - 1]);
    }
  }

  /** No loss is dropped or counted twice: per-layer loss plus unattributed loss is the loss of the matched rows. */
  lemma {:induction false} LossIsConserved(pairs: seq<Pair>)
    ensures AttributedLoss(Tally(pairs)) + Tally(pairs).unattributedLoss == MatchedLoss(pairs)
  {
    if pairs != [] {
      LossIsConserved(pairs[..|pairs| - 1]);
      LossAfterPair(Tally(pairs[..|pairs| - 1]), pairs[|pairs| - 1]);
    }
  }

  function LossOfLayer(p: Pair, layer: Layer): nat {
    if p.FirstDivergent() == Some(layer) && p.Loss().Some? then p.Loss().value else 0
  }

  lemma LayerLossAfterPair(r: Report, p: Pair, layer: Layer)
    requires HasAllLayers(r) && layer in CONTENT_LAYERS && layer in LAYERS
    ensures AfterPair(r, p).layers[layer].loss == r.layers[layer].loss + LossOfLayer(p, layer)
  {
  }

  /** The loss of one pair goes to exactly one place. */
  lemma LossAfterPair(r: Report, p: Pair)
    requires HasAllLayers(r)
    ensures AttributedLoss(AfterPair(r, p)) + AfterPair(r, p).unattributedLoss
            == AttributedLoss(r) + r.unattributedLoss + p.Loss().UnwrapOr(0)
  {
    LayerLossAfterPair(r, p, SystemPrefix);
    LayerLossAfterPair(r, p, SystemSuffix);
    LayerLossAfterPair(r, p, Tools);
    LayerLossAfterPair(r, p, HistoryBody);
    LayerLossAfterPair(r, p, HistoryTail);
  }

  // -- pairing requests by session --------------------------------------------

  type ChurnIndex = map<(Option<nat>, nat, nat), ChurnRow>

  /** Row k is the last of the list for its transition. */
  predicate IsLastOfItsKey(churns: seq<ChurnRow>, k: nat) {
    k < |churns| && forall j | k < j < |churns| :: KeyOf(churns[j]) != KeyOf(churns[k])
  }

  /** The index holds, for every transition in the list, its last row. The store lists the newest rows of
      its log, newest first, so of a repeated transition that is the oldest one in this window. */
  ghost predicate IndexesLast(index: ChurnIndex, churns: seq<ChurnRow>) {
    && (forall k: nat | IsLastOfItsKey(churns, k) :: KeyOf(churns[k]) in index && index[KeyOf(churns[k])] == churns[k])
    && (forall key | key in index :: exists k: nat :: IsLastOfItsKey(churns, k) && KeyOf(churns[k]) == key)
  }

  method BuildIndex(churns: seq<ChurnRow>) returns (index: ChurnIndex)
    ensures IndexesLast(index, churns)
  {
    index := map[];
    for i := 0 to |churns|
      invariant IndexesLast(index, churns[..i])
    {
      IndexOneMore(index, churns[..i], churns[i]);
      assert churns[..i + 1] == churns[..i] + [churns[i]];
      index := index[KeyOf(churns[i]) := churns[i]];
    }
    assert churns[..|churns|] == churns;
  }

  lemma LastOfLonger(churns: seq<ChurnRow>, next: ChurnRow)
    ensures var longer := churns + [next];
            && IsLastOfItsKey(longer, |churns|)
            && forall k: nat | k < |churns| ::
                 IsLastOfItsKey(longer, k) <==> IsLastOfItsKey(churns, k) && KeyOf(churns[k]) != KeyOf(next)
  {
    var longer := churns + [next];
    forall k: nat | k < |churns|
      ensures IsLastOfItsKey(longer, k) <==> IsLastOfItsKey(churns, k) && KeyOf(churns[k]) != KeyOf(next)
    {
      assert longer[k] == churns[k] && longer[|churns|] == next;
      assert forall j | k < j < |churns| :: longer[j] == churns[j];
    }
  }

  lemma IndexOneMore(index: ChurnIndex, churns: seq<ChurnRow>, next: ChurnRow)
    requires IndexesLast(index, churns)
    ensures IndexesLast(index[KeyOf(next) := next], churns + [next])
  {
    var longer, after := churns + [next], index[KeyOf(next) := next];
    LastOfLonger(churns, next);
    forall key | key in after
      ensures exists k: nat :: IsLastOfItsKey(longer, k) && KeyOf(longer[k]) == key
    {
      if key != KeyOf(next) {
        var k: nat :| IsLastOfItsKey(churns, k) && KeyOf(churns[k]) == key;
        assert IsLastOfItsKey(longer, k) && longer[k] == churns[k];
      }
    }
  }

  function NewestFirst(log: seq<ChurnRow>): (r: seq<ChurnRow>)
    ensures |r| == |log| && forall i | 0 <= i < |r| :: r[i] == log[|log| - 1 - i]
  {
    if log == [] then [] else [log[|log| - 1]] + NewestFirst(log[..|log| - 1])
  }

  /** So on a window of the log in the order it was written, of a repeated transition the first row k is the one that is used, and any
      later row m only if it says the same. */
  lemma OldestRowIsUsed(index: ChurnIndex, log: seq<ChurnRow>, k: nat, m: nat)
    requires IndexesLast(index, NewestFirst(log)) && k <= m < |log| && KeyOf(log[m]) == KeyOf(log[k])
    requires forall j | 0 <= j < k :: KeyOf(log[j]) != KeyOf(log[k])
    ensures KeyOf(log[k]) in index && index[KeyOf(log[k])] == log[k]
    ensures index[KeyOf(log[m])] == log[m] <==> log[m] == log[k]
  {
    FirstIsLastListed(log, k);
    assert index[KeyOf(log[k])] == NewestFirst(log)[|log| - 1 - k];
  }

  lemma FirstIsLastListed(log: seq<ChurnRow>, k: nat)
    requires k < |log| && forall j | 0 <= j < k :: KeyOf(log[j]) != KeyOf(log[k])
    ensures IsLastOfItsKey(NewestFirst(log), |log| - 1 - k) && NewestFirst(log)[|log| - 1 - k] == log[k]
  {
    var listed := NewestFirst(log);
    forall j | |log| - 1 - k < j < |listed|
      ensures KeyOf(listed[j]) != KeyOf(log[k])
    {
      assert listed[j] == log[|log| - 1 - j];
    }
  }

  /** Two rows of one transition that lost different amounts: the later one is ignored. */
  lemma NewestRowIsIgnored(index: ChurnIndex)
    requires IndexesLast(index, NewestFirst([ChurnRow(Some(1), 7, 8, None, Some(100)), ChurnRow(Some(1), 7, 8, None, Some(900))]))
    ensures (Some(1), 7, 8) in index && index[(Some(1), 7, 8)].loss == Some(100)
  {
    OldestRowIsUsed(index, [ChurnRow(Some(1), 7, 8, None, Some(100)), ChurnRow(Some(1), 7, 8, None, Some(900))], 0, 1);
  }

  function KeyOf(c: ChurnRow): (Option<nat>, nat, nat) {
    (c.session, c.previous, c.next)
  }

  function PairOf(index: ChurnIndex, previous: StoredRequest, current: StoredRequest): Pair {
    var key := (previous.session, previous.fingerprint, current.fingerprint);
    Pair(previous, current, if key in index then Some(index[key]) else None)
  }

  function PairsOf(index: ChurnIndex, requests: seq<StoredRequest>): (pairs: seq<Pair>)
    ensures |pairs| == if requests == [] then 0 else |requests| - 1
  {
    if |requests| < 2 then []
    else
      PairsOf(index, requests[..|requests| - 1])
      + [PairOf(index, requests[|requests| - 2], requests[|requests| - 1])]
  }

  function OfSession(requests: seq<StoredRequest>, session: Option<nat>): seq<StoredRequest> {
    if requests == [] then []
    else (if requests[0].session == session then [requests[0]] else []) + OfSession(requests[1..], session)
  }

  function InsertById(e: StoredRequest, s: seq<StoredRequest>): seq<StoredRequest> {
    if s == [] || e.id <= s[0].id then [e] + s else [s[0]] + InsertById(e, s[1..])
  }

  function SortedById(s: seq<StoredRequest>): seq<StoredRequest> {
    if s == [] then [] else InsertById(s[0], SortedById(s[1..]))
  }

  predicate IncreasingIds(s: seq<StoredRequest>) {
    forall i, j | 0 <= i < j < |s| :: s[i].id <= s[j].id
  }

  lemma {:induction false} InsertByIdPermutes(e: StoredRequest, s: seq<StoredRequest>)
    ensures multiset(InsertById(e, s)) == multiset(s) + multiset{e} && |InsertById(e, s)| == |s| + 1
  {
    if s != [] && e.id > s[0].id {
      InsertByIdPermutes(e, s[1..]);
      assert s == [s[0]] + s[1..];
    }
  }

  lemma {:induction false} InsertByIdSorts(e: StoredRequest, s: seq<StoredRequest>)
    requires IncreasingIds(s)
    ensures IncreasingIds(InsertById(e, s))
    ensures InsertById(e, s)[0] == e || (s != [] && InsertById(e, s)[0] == s[0])
  {
    if s != [] && e.id > s[0].id {
      InsertByIdSorts(e, s[1..]);
      PrependById(s[0], InsertById(e, s[1..]));
    }
  }

  lemma PrependById(e: StoredRequest, s: seq<StoredRequest>)
    requires IncreasingIds(s) && (s != [] ==> e.id <= s[0].id)
    ensures IncreasingIds([e] + s)
  {
  }

  lemma {:induction false} SortedByIdIsASortedPermutation(s: seq<StoredRequest>)
    ensures IncreasingIds(SortedById(s)) && multiset(SortedById(s)) == multiset(s) && |SortedById(s)| == |s|
  {
    if s != [] {
      var rest := SortedById(s[1..]);
      SortedByIdIsASortedPermutation(s[1..]);
      InsertByIdSorts(s[0], rest);
      InsertByIdPermutes(s[0], rest);
      assert multiset(s) == multiset(s[1..]) + multiset{s[0]} by {
        assert s == [s[0]] + s[1..];
      }
    }
  }

  /** The pairs of the given sessions, session by session. */
  function AllPairs(index: ChurnIndex, requests: seq<StoredRequest>, sessions: seq<Option<nat>>): seq<Pair> {
    if sessions == [] then []
    else
      AllPairs(index, requests, sessions[..|sessions| - 1])
      + PairsOf(index, SortedById(OfSession(requests, sessions[|sessions| - 1])))
  }

  /** Each session that occurs, once. */
  predicate ListsSessions(requests: seq<StoredRequest>, sessions: seq<Option<nat>>) {
    && (forall i, j | 0 <= i < j < |sessions| :: sessions[i] != sessions[j])
    && (forall i | 0 <= i < |requests| :: requests[i].session in sessions)
    && (forall s | s in sessions :: exists i | 0 <= i < |requests| :: requests[i].session == s)
  }

  /** Pairs are conserved: requests minus sessions. */
  lemma PairCountIsRequestsMinusSessions(index: ChurnIndex, requests: seq<StoredRequest>, sessions: seq<Option<nat>>)
    requires ListsSessions(requests, sessions)
    ensures |AllPairs(index, requests, sessions)| == |requests| - |sessions|
  {
    forall s | s in sessions
      ensures OfSession(requests, s) != []
    {
      var i :| 0 <= i < |requests| && requests[i].session == s;
      OccursMeansSome(requests, s, i);
    }
    PairCount(index, requests, sessions);
    EveryRequestInOneSession(requests, sessions);
  }

  function InSessions(requests: seq<StoredRequest>, sessions: seq<Option<nat>>): nat {
    if sessions == [] then 0
    else InSessions(requests, sessions[..|sessions| - 1]) + |OfSession(requests, sessions[|sessions| - 1])|
  }

  lemma {:induction false} OccursMeansSome(requests: seq<StoredRequest>, s: Option<nat>, i: nat)
    requires i < |requests| && requests[i].session == s
    ensures OfSession(requests, s) != []
  {
    if i > 0 {
      OccursMeansSome(requests[1..], s, i - 1);
    }
  }

  lemma {:induction false} PairCount(index: ChurnIndex, requests: seq<StoredRequest>, sessions: seq<Option<nat>>)
    requires forall s | s in sessions :: OfSession(requests, s) != []
    ensures |AllPairs(index, requests, sessions)| == InSessions(requests, sessions) - |sessions|
  {
    if sessions != [] {
      PairCount(index, requests, sessions[..|sessions| - 1]);
      SortedByIdIsASortedPermutation(OfSession(requests, sessions[|sessions| - 1]));
    }
  }

  lemma {:induction false} EveryRequestInOneSession(requests: seq<StoredRequest>, sessions: seq<Option<nat>>)
    requires forall i, j | 0 <= i < j < |sessions| :: sessions[i] != sessions[j]
    requires forall i | 0 <= i < |requests| :: requests[i].session in sessions
    ensures InSessions(requests, sessions) == |requests|
  {
    if requests == [] {
      NobodyInSessions(sessions);
    } else {
      assert requests[0].session in sessions;
      var k :| 0 <= k < |sessions| && sessions[k] == requests[0].session;
      OneMoreRequest(requests, sessions, k);
      EveryRequestInOneSession(requests[1..], sessions);
    }
  }

  lemma {:induction false} NobodyInSessions(sessions: seq<Option<nat>>)
    ensures InSessions([], sessions) == 0
  {
    if sessions != [] {
      NobodyInSessions(sessions[..|sessions| - 1]);
    }
  }

  /** The first request is counted by its own session and by no other. */
  lemma {:induction false} OneMoreRequest(requests: seq<StoredRequest>, sessions: seq<Option<nat>>, k: nat)
    requires requests != [] && k < |sessions| && sessions[k] == requests[0].session
    requires forall i, j | 0 <= i < j < |sessions| :: sessions[i] != sessions[j]
    ensures InSessions(requests, sessions) == InSessions(requests[1..], sessions) + 1
  {
    var n := |sessions| - 1;
    if k == n {
      SameElsewhere(requests, sessions[..n]);
    } else {
      OneMoreRequest(requests, sessions[..n], k);
    }
  }

  lemma {:induction false} SameElsewhere(requests: seq<StoredRequest>, sessions: seq<Option<nat>>)
    requires requests != [] && requests[0].session !in sessions
    ensures InSessions(requests, sessions) == InSessions(requests[1..], sessions)
  {
    if sessions != [] {
      SameElsewhere(requests, sessions[..|sessions| - 1]);
    }
  }

  /** The sessions that occur, in order of first appearance. */
  method SessionsOf(requests: seq<StoredRequest>) returns (sessions: seq<Option<nat>>)
    ensures ListsSessions(requests, sessions)
  {
    sessions := [];
    for i := 0 to |requests|
      invariant ListsSessions(requests[..i], sessions)
    {
      assert requests[..i + 1] == requests[..i] + [requests[i]];
      ListsOneMore(requests[..i], requests[i], sessions);
      if requests[i].session !in sessions {
        sessions := sessions + [requests[i].session];
      }
    }
    assert requests[..|requests|] == requests;
  }

  /** Counts every consecutive pair of one session on top of a report. */
  method CountSession(index: ChurnIndex, ordered: seq<StoredRequest>, before: Report, ghost past: seq<Pair>)
    returns (report: Report)
    requires before == Tally(past)
    ensures report == Tally(past + PairsOf(index, ordered))
  {
    report := before;
    assert past + [] == past;
    if ordered == [] {
      return;
    }
    assert PairsOf(index, ordered[..1]) == [];
    for k := 1 to |ordered|
      invariant report == Tally(past + PairsOf(index, ordered[..k]))
    {
      var pair := PairOf(index, ordered[k - 1], ordered[k]);
      OnePairMore(index, ordered, k);
      TallyOneMore(past + PairsOf(index, ordered[..k]), pair);
      assert past + PairsOf(index, ordered[..k + 1]) == past + PairsOf(index, ordered[..k]) + [pair];
      report := AfterPair(report, pair);
    }
    assert ordered[..|ordered|] == ordered;
  }

  lemma TallyOneMore(pairs: seq<Pair>, pair: Pair)
    ensures Tally(pairs + [pair]) == AfterPair(Tally(pairs), pair)
  {
    assert (pairs + [pair])[..|pairs|] == pairs;
  }

  /** The stored view: group by session, sort each by id, count every consecutive pair. */
  method TopologyFromStore(requests: seq<StoredRequest>, churns: seq<ChurnRow>)
    returns (report: Report, sessions: seq<Option<nat>>, index: ChurnIndex)
    ensures ListsSessions(requests, sessions)
    ensures report == Tally(AllPairs(index, requests, sessions))
    ensures report.totalPairs == |requests| - |sessions|
    ensures IndexesLast(index, churns)
  {
    index := BuildIndex(churns);
    sessions := SessionsOf(requests);
    report := EMPTY_REPORT;
    for s := 0 to |sessions|
      invariant report == Tally(AllPairs(index, requests, sessions[..s]))
    {
      assert sessions[..s + 1][..s] == sessions[..s];
      report := CountSession(index, SortedById(OfSession(requests, sessions[s])), report,
                             AllPairs(index, requests, sessions[..s]));
    }
    assert sessions[..|sessions|] == sessions;
    PairCountIsRequestsMinusSessions(index, requests, sessions);
    LayerCountersAreConserved(AllPairs(index, requests, sessions), CacheKey);
  }

  lemma OnePairMore(index: ChurnIndex, ordered: seq<StoredRequest>, k: nat)
    requires 1 <= k < |ordered|
    ensures PairsOf(index, ordered[..k + 1]) == PairsOf(index, ordered[..k]) + [PairOf(index, ordered[k - 1], ordered[k])]
  {
    assert ordered[..k + 1][..k] == ordered[..k];
  }

  lemma ListsOneMore(requests: seq<StoredRequest>, next: StoredRequest, sessions: seq<Option<nat>>)
    requires ListsSessions(requests, sessions)
    ensures ListsSessions(requests + [next], if next.session in sessions then sessions else sessions + [next.session])
  {
    var longer := requests + [next];
    forall s | s in sessions
      ensures exists i | 0 <= i < |longer| :: longer[i].session == s
    {
      var i :| 0 <= i < |requests| && requests[i].session == s;
      assert longer[i].session == s;
    }
    assert longer[|requests|].session == next.session;
  }

  // -- soundness of the attributed sub-layers ---------------------------------

  /** A verdict never contradicts the true hashes. */
  predicate SoundVerdict(verdict: Option<bool>, a: Option<Digest>, b: Option<Digest>) {
    verdict.Some? ==> verdict.value == (a != b)
  }

  predicate StoredSystem(hash: Option<Digest>, c: RequestContent) {
    hash.Some? ==> hash.value == OfText(SystemText(c))
  }

  predicate StoredHistory(hash: Option<Digest>, c: RequestContent) {
    hash == if c.messages != [] then Some(OfList(c.messages)) else None
  }

  /** The two system verdicts are sound, even when the churn row used was recorded for another transition (a', b')
      between the same two fingerprints, which pins down system prompt but not history. */
  lemma SystemVerdictsAreSound(tm: TextModel, a: RequestContent, b: RequestContent, a': RequestContent, b': RequestContent,
                               systemA: Option<Digest>, systemB: Option<Digest>, first: Option<Layer>)
    requires StoredSystem(systemA, a) && StoredSystem(systemB, b)
    requires SystemText(a') == SystemText(a) && SystemText(b') == SystemText(b)
    requires first.Some? ==> IsFirstDivergent(ToHashes(tm, a'), ToHashes(tm, b'), first)
    ensures var (prefix, suffix) := SystemStatus(systemA, systemB, first);
            && SoundVerdict(prefix, ToHashes(tm, a).systemPrefix, ToHashes(tm, b).systemPrefix)
            && SoundVerdict(suffix, ToHashes(tm, a).systemSuffix, ToHashes(tm, b).systemSuffix)
  {
    if first.Some? {
      FirstByHashIsFirst(ToHashes(tm, a'), ToHashes(tm, b'));
      FirstDivergentIsUnique(ToHashes(tm, a'), ToHashes(tm, b'), FirstByHash(ToHashes(tm, a'), ToHashes(tm, b')), first);
    }
    LayersDetermineContent(tm, a, b);
  }

  predicate BothHistoryVerdictsSound(tm: TextModel, a: RequestContent, b: RequestContent,
                                     historyA: Option<Digest>, historyB: Option<Digest>, first: Option<Layer>)
  {
    var (body, tail) := HistoryStatus(historyA, historyB, first);
    && SoundVerdict(body, ToHashes(tm, a).historyBody, ToHashes(tm, b).historyBody)
    && SoundVerdict(tail, ToHashes(tm, a).historyTail, ToHashes(tm, b).historyTail)
  }

  /** The two history verdicts are not. The churn row used may have been recorded for another transition (a', b') between
      the same two fingerprints, which pins down system prompt and tools but not the history. For any such row both are
      sound exactly when the history did not change behind a divergence in the system prompt or the tools, and a row that
      blames the history blames the part this pair diverged in first. */
  lemma HistoryVerdictsAreSoundIff(tm: TextModel, a: RequestContent, b: RequestContent, a': RequestContent, b': RequestContent,
                                   historyA: Option<Digest>, historyB: Option<Digest>, first: Option<Layer>, own: Option<Layer>)
    requires StoredHistory(historyA, a) && StoredHistory(historyB, b)
    requires SystemText(a') == SystemText(a) && SystemText(b') == SystemText(b) && a'.tools == a.tools && b'.tools == b.tools
    requires first.Some? ==> IsFirstDivergent(ToHashes(tm, a'), ToHashes(tm, b'), first)
    requires IsFirstDivergent(ToHashes(tm, a), ToHashes(tm, b), own)
    ensures BothHistoryVerdictsSound(tm, a, b, historyA, historyB, first) <==>
              && !(historyA != historyB && first in {Some(SystemPrefix), Some(SystemSuffix), Some(Tools)})
              && (first in {Some(HistoryBody), Some(HistoryTail)} ==> own == first)
  {
    var before, after, before', after' := ToHashes(tm, a), ToHashes(tm, b), ToHashes(tm, a'), ToHashes(tm, b');
    FirstByHashIsFirst(before, after);
    FirstDivergentIsUnique(before, after, FirstByHash(before, after), own);
    if first.Some? {
      FirstByHashIsFirst(before', after');
      FirstDivergentIsUnique(before', after', FirstByHash(before', after'), first);
    }
    LayersDetermineContent(tm, a, b);
    VerdictsByHash(before, after, before', after', historyA, historyB, first);
  }

  /** Two pairs that agree on system prompt and tools. */
  predicate SamePrompt(h: LayeredHashes, h': LayeredHashes) {
    h.systemPrefix == h'.systemPrefix && h.systemSuffix == h'.systemSuffix && h.tools == h'.tools
  }

  lemma VerdictsByHash(before: LayeredHashes, after: LayeredHashes, before': LayeredHashes, after': LayeredHashes,
                       historyA: Option<Digest>, historyB: Option<Digest>, first: Option<Layer>)
    requires SamePrompt(before, before') && SamePrompt(after, after')
    requires historyA == historyB <==> before.historyBody == after.historyBody && before.historyTail == after.historyTail
    requires first.Some? ==> first == FirstByHash(before', after')
    ensures var (body, tail) := HistoryStatus(historyA, historyB, first);
            SoundVerdict(body, before.historyBody, after.historyBody) && SoundVerdict(tail, before.historyTail, after.historyTail)
            <==>
              && !(historyA != historyB && first in {Some(SystemPrefix), Some(SystemSuffix), Some(Tools)})
              && (first in {Some(HistoryBody), Some(HistoryTail)} ==> FirstByHash(before, after) == first)
  {
  }

  /** In particular with the pair's own row: exactly when the history did not change behind an earlier divergence. */
  lemma OwnRowIsSoundIff(tm: TextModel, a: RequestContent, b: RequestContent,
                         historyA: Option<Digest>, historyB: Option<Digest>, own: Option<Layer>)
    requires StoredHistory(historyA, a) && StoredHistory(historyB, b)
    requires IsFirstDivergent(ToHashes(tm, a), ToHashes(tm, b), own)
    ensures BothHistoryVerdictsSound(tm, a, b, historyA, historyB, own) <==>
              !(historyA != historyB && own in {Some(SystemPrefix), Some(SystemSuffix), Some(Tools)})
  {
    HistoryVerdictsAreSoundIff(tm, a, b, a, b, historyA, historyB, own, own);
  }

  /** A concrete such pair: the system prompt and an earlier message both changed, and the verdict on the history body
      is "unchanged". */
  lemma HistoryVerdictCanBeWrong(tm: TextModel)
    ensures var a := RequestContent(Some("a"), [1, 2], None, None, None, None);
            var b := RequestContent(Some("b"), [3, 2], None, None, None, None);
            var first := FirstByHash(ToHashes(tm, a), ToHashes(tm, b));
            && IsFirstDivergent(ToHashes(tm, a), ToHashes(tm, b), first)
            && HistoryStatus(ToHashes(tm, a).history, ToHashes(tm, b).history, first).0 == Some(false)
            && ToHashes(tm, a).historyBody != ToHashes(tm, b).historyBody
  {
    var a := RequestContent(Some("a"), [1, 2], None, None, None, None);
    var b := RequestContent(Some("b"), [3, 2], None, None, None, None);
    FirstByHashIsFirst(ToHashes(tm, a), ToHashes(tm, b));
    LayersDetermineContent(tm, a, b);
    assert "a"[0] != "b"[0];
    assert [1, 2][0] != [3, 2][0] && BodyOf(a)[0] == 1 && BodyOf(b)[0] == 3;
  }

  // -- a row of another transition --------------------------------------------

  function Chat(messages: seq<Item>, route: nat): RequestContent {
    RequestContent(Some("s"), messages, None, Some(route), None, None)
  }

  /** What is stored of a request; its fingerprint follows from system prompt, tools and route. */
  function Stored(tm: TextModel, id: nat, fingerprint: nat, c: RequestContent): StoredRequest {
    var h := ToHashes(tm, c);
    StoredRequest(id, Some(1), fingerprint, h.system, h.tools, None, h.history, h.route, 0)
  }

  /** The churn row of a transition: blamed on what its own contents diverged in first. */
  function RowFor(tm: TextModel, a: RequestContent, previous: nat, b: RequestContent, next: nat): ChurnRow {
    ChurnRow(Some(1), previous, next, FirstByHash(ToHashes(tm, a), ToHashes(tm, b)), None)
  }

  /** One session: to route 2 while the history grows, back to route 1, and to route 2 again with the same history. The
      third transition is attributed by the row of the first, and its unchanged history body is reported as changed. */
  lemma RowOfAnotherTransitionMisleads(tm: TextModel, index: ChurnIndex)
    requires var short, long1, long2 := Chat([1], 1), Chat([1, 2], 1), Chat([1, 2], 2);
             IndexesLast(index, NewestFirst([RowFor(tm, short, 7, long2, 8), RowFor(tm, long2, 8, long1, 7), RowFor(tm, long1, 7, long2, 8)]))
    ensures var short, long1, long2 := Chat([1], 1), Chat([1, 2], 1), Chat([1, 2], 2);
            var session := [Stored(tm, 1, 7, short), Stored(tm, 2, 8, long2), Stored(tm, 3, 7, long1), Stored(tm, 4, 8, long2)];
            var p := PairsOf(index, session)[2];
            && p.previous == session[2] && p.current == session[3]
            && p.previous.historyHash == p.current.historyHash && p.previous.historyHash.Some?
            && ToHashes(tm, long1).historyBody == ToHashes(tm, long2).historyBody
            && StatusOf(p, HistoryBody) == Some(true)
  {
    var short, long1, long2 := Chat([1], 1), Chat([1, 2], 1), Chat([1, 2], 2);
    var log := [RowFor(tm, short, 7, long2, 8), RowFor(tm, long2, 8, long1, 7), RowFor(tm, long1, 7, long2, 8)];
    OldestRowIsUsed(index, log, 0, 2);
    assert BodyOf(short) == [] && BodyOf(long2) == [1];
    assert index[(Some(1), 7, 8)].firstDivergent == Some(HistoryBody);
    var session := [Stored(tm, 1, 7, short), Stored(tm, 2, 8, long2), Stored(tm, 3, 7, long1), Stored(tm, 4, 8, long2)];
    assert PairsOf(index, session)[2] == PairOf(index, session[2], session[3]);
  }
}
