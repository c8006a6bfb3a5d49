/** Churn diagnosis (churn.py): which layer of the prompt broke the reusable prefix, found once by comparing hashes in
    order of importance and once by searching the contents in prefix order. */
module ChurnDiagnosis {
  import opened Wrappers

  /** One member of a canonical JSON list: a message or a tool schema. */
  type Item = nat

  /** SHA-256 of raw text or of a canonical JSON list, as an injective function: only equality is ever used. */
  datatype Digest = OfText(text: string) | OfList(items: seq<Item>)

  datatype Layer = SystemPrefix | SystemSuffix | Tools | HistoryBody | HistoryTail | Route | Model | CacheKey

  /** Content layers in prefix order. */
  const CONTENT_LAYERS: seq<Layer> := [SystemPrefix, SystemSuffix, Tools, HistoryBody, HistoryTail]

  datatype RequestContent = RequestContent(
    system: Option<string>, messages: seq<Item>, tools: Option<seq<Item>>,
    route: Option<nat>, model: Option<nat>, cacheKey: Option<nat>)

  datatype LayeredHashes = LayeredHashes(
    systemPrefix: Option<Digest>, systemSuffix: Option<Digest>, system: Option<Digest>, tools: Option<Digest>,
    history: Option<Digest>, historyBody: Option<Digest>, historyTail: Option<Digest>,
    route: Option<nat>, model: Option<nat>, cacheKey: Option<nat>)

  /** The parts of the source that look inside text: where the first volatile region starts, how lists and whole
      requests are serialised, and whether a window looks volatile. All are arbitrary here. */
  datatype TextModel = TextModel(
    boundary: string -> nat, list: seq<Item> -> string, request: RequestContent -> string, volatile: string -> bool)

  function SplitAt(tm: TextModel, system: string): nat {
    if tm.boundary(system) <= |system| then tm.boundary(system) else |system|
  }

  function SystemText(c: RequestContent): string {
    c.system.UnwrapOr("")
  }

  function PrefixOf(tm: TextModel, c: RequestContent): string {
    SystemText(c)[..SplitAt(tm, SystemText(c))]
  }

  function SuffixOf(tm: TextModel, c: RequestContent): string {
    SystemText(c)[SplitAt(tm, SystemText(c))..]
  }

  function BodyOf(c: RequestContent): seq<Item> {
    if c.messages == [] then [] else c.messages[..|c.messages| - 1]
  }

  function TailOf(c: RequestContent): seq<Item> {
    if c.messages == [] then [] else c.messages[|c.messages| - 1..]
  }

  function ToHashes(tm: TextModel, c: RequestContent): LayeredHashes {
    LayeredHashes(
      Some(OfText(PrefixOf(tm, c))), Some(OfText(SuffixOf(tm, c))), Some(OfText(SystemText(c))),
      Some(if c.tools.Some? then OfList(c.tools.value) else OfText("")),
      if c.messages != [] then Some(OfList(c.messages)) else None,
      Some(OfList(BodyOf(c))), Some(OfList(TailOf(c))), c.route, c.model, c.cacheKey)
  }

  // -- classification ---------------------------------------------------------

  datatype Cause =
    | RouterAffinityLoss | ProviderFailover | MemoryPrefixMoved | VolatileValueInPrefix
    | VolatileSuffix | SystemSuffixChurn | ToolListMutation | HistoryRewritten | HistoryBoundaryChurn
    | CacheKeyMutation | SystemPromptChanged | ConversationChanged | IdentityChangedElsewhere

  /** Base confidences, in hundredths. */
  function BaseConfidence(cause: Cause): nat {
    match cause
    case RouterAffinityLoss => 92
    case ProviderFailover => 85
    case MemoryPrefixMoved => 90
    case VolatileValueInPrefix => 85
    case VolatileSuffix => 85
    case SystemSuffixChurn => 85
    case ToolListMutation => 80
    case HistoryRewritten => 75
    case HistoryBoundaryChurn => 70
    case CacheKeyMutation => 70
    case SystemPromptChanged => 65
    case ConversationChanged => 65
    case IdentityChangedElsewhere => 60
  }

  datatype DivergenceHint = DivergenceHint(layer: Layer, offset: nat)

  datatype Classification = Classification(
    systemChanged: bool, toolsChanged: bool, historyChanged: bool, routeChanged: bool, cacheKeyChanged: bool,
    modelChanged: bool, prefixChanged: Option<bool>, suffixChanged: Option<bool>,
    bodyChanged: Option<bool>, tailChanged: Option<bool>,
    firstDivergent: Option<DivergenceHint>, lossTokens: Option<nat>, cause: Option<Cause>, confidence: Option<nat>)

  function MaybeDiffers<T(==)>(a: Option<T>, b: Option<T>): Option<bool> {
    if a.None? || b.None? then None else Some(a != b)
  }

  function Flags(previous: LayeredHashes, current: LayeredHashes): Classification {
    Classification(
      previous.system != current.system, previous.tools != current.tools, previous.history != current.history,
      previous.route != current.route, previous.cacheKey != current.cacheKey, previous.model != current.model,
      MaybeDiffers(previous.systemPrefix, current.systemPrefix), MaybeDiffers(previous.systemSuffix, current.systemSuffix),
      MaybeDiffers(previous.historyBody, current.historyBody), MaybeDiffers(previous.historyTail, current.historyTail),
      None, None, None, None)
  }

  predicate LayerChanged(c: Classification, layer: Layer) {
    match layer
    case SystemPrefix => c.prefixChanged == Some(true)
    case SystemSuffix => c.suffixChanged == Some(true)
    case Tools => c.toolsChanged
    case HistoryBody => c.bodyChanged == Some(true)
    case HistoryTail => c.tailChanged == Some(true)
    case Route => c.routeChanged
    case Model => c.modelChanged
    case CacheKey => c.cacheKeyChanged
  }

  function CauseOfLayer(layer: Layer): Cause {
    match layer
    case SystemPrefix => MemoryPrefixMoved
    case SystemSuffix => VolatileSuffix
    case Tools => ToolListMutation
    case HistoryBody => HistoryRewritten
    case HistoryTail => HistoryBoundaryChurn
    case Route => RouterAffinityLoss
    case Model => ProviderFailover
    case CacheKey => CacheKeyMutation
  }

  predicate OnlySystemChanged(c: Classification) {
    c.systemChanged && !(c.toolsChanged || c.historyChanged || c.routeChanged || c.cacheKeyChanged || c.modelChanged)
  }

  function PrimaryCause(c: Classification, identityMoved: bool): Option<Cause> {
    if c.routeChanged then Some(RouterAffinityLoss)
    else if c.modelChanged then Some(ProviderFailover)
    else if c.suffixChanged == Some(true) && c.prefixChanged == Some(false) then
      if OnlySystemChanged(c) then Some(SystemSuffixChurn) else Some(VolatileSuffix)
    else if c.prefixChanged == Some(true) && c.suffixChanged == Some(false) then Some(MemoryPrefixMoved)
    else if LayerChanged(c, SystemPrefix) then Some(CauseOfLayer(SystemPrefix))
    else if LayerChanged(c, SystemSuffix) then Some(CauseOfLayer(SystemSuffix))
    else if LayerChanged(c, Tools) then Some(CauseOfLayer(Tools))
    else if LayerChanged(c, HistoryBody) then Some(CauseOfLayer(HistoryBody))
    else if LayerChanged(c, HistoryTail) then Some(CauseOfLayer(HistoryTail))
    else if c.systemChanged then Some(SystemPromptChanged)
    else if c.historyChanged then Some(ConversationChanged)
    else if c.cacheKeyChanged then Some(CacheKeyMutation)
    else if identityMoved then Some(IdentityChangedElsewhere)
    else None
  }

  function ChangedFlatLayers(c: Classification): nat {
    (if c.systemChanged then 1 else 0) + (if c.toolsChanged then 1 else 0) + (if c.historyChanged then 1 else 0)
    + (if c.routeChanged then 1 else 0) + (if c.cacheKeyChanged then 1 else 0) + (if c.modelChanged then 1 else 0)
  }

  /** Ten hundredths less for every changed flat layer beyond the first, never below one half. */
  function Confidence(base: nat, c: Classification): nat {
    var extra := if ChangedFlatLayers(c) >= 1 then ChangedFlatLayers(c) - 1 else 0;
    if base >= 50 + 10 * extra then base - 10 * extra else 50
  }

  function ClassifySnapshots(previous: LayeredHashes, current: LayeredHashes, identityMoved: bool): Classification {
    var c := Flags(previous, current);
    match PrimaryCause(c, identityMoved)
    case None => c
    case Some(cause) => c.(cause := Some(cause), confidence := Some(Confidence(BaseConfidence(cause), c)))
  }

  // -- searching the contents -------------------------------------------------

  /** How far two texts agree. */
  predicate AgreesUpTo(a: string, b: string, n: nat) {
    n <= |a| && n <= |b| && a[..n] == b[..n] && (n < |a| && n < |b| ==> a[n] != b[n])
  }

  lemma AgreesNoFurther(a: string, b: string, m: nat, n: nat)
    requires AgreesUpTo(a, b, m) && AgreesUpTo(a, b, n)
    ensures n <= m
  {
    assert forall i | 0 <= i < n :: a[i] == a[..n][i] == b[..n][i] == b[i];
  }

  lemma AgreementIsUnique(a: string, b: string, m: nat, n: nat)
    requires AgreesUpTo(a, b, m) && AgreesUpTo(a, b, n)
    ensures m == n
  {
    AgreesNoFurther(a, b, m, n);
    AgreesNoFurther(a, b, n, m);
  }

  method CommonPrefixLength(previous: string, current: string) returns (n: nat)
    ensures AgreesUpTo(previous, current, n)
  {
    var limit := if |previous| <= |current| then |previous| else |current|;
    n := 0;
    while n < limit
      invariant n <= limit && previous[..n] == current[..n]
    {
      if previous[n] != current[n] {
        return;
      }
      n := n + 1;
    }
  }

  function HashOfLayer(h: LayeredHashes, layer: Layer): Option<Digest>
    requires layer in CONTENT_LAYERS
  {
    match layer
    case SystemPrefix => h.systemPrefix
    case SystemSuffix => h.systemSuffix
    case Tools => h.tools
    case HistoryBody => h.historyBody
    case HistoryTail => h.historyTail
  }

  function TextOfLayer(tm: TextModel, c: RequestContent, layer: Layer): string
    requires layer in CONTENT_LAYERS
  {
    match layer
    case SystemPrefix => PrefixOf(tm, c)
    case SystemSuffix => SuffixOf(tm, c)
    case Tools => if c.tools.Some? then tm.list(c.tools.value) else "null"
    case HistoryBody => tm.list(BodyOf(c))
    case HistoryTail => tm.list(TailOf(c))
  }

  /** The first content layer, in prefix order, whose hashes differ. */
  predicate IsFirstDivergent(previous: LayeredHashes, current: LayeredHashes, layer: Option<Layer>) {
    match layer
    case None => forall l | l in CONTENT_LAYERS :: HashOfLayer(previous, l) == HashOfLayer(current, l)
    case Some(found) =>
      exists k | 0 <= k < |CONTENT_LAYERS| ::
        && CONTENT_LAYERS[k] == found && HashOfLayer(previous, found) != HashOfLayer(current, found)
        && forall j | 0 <= j < k :: HashOfLayer(previous, CONTENT_LAYERS[j]) == HashOfLayer(current, CONTENT_LAYERS[j])
  }

  function LayerOfHint(hint: Option<DivergenceHint>): Option<Layer> {
    if hint.Some? then Some(hint.value.layer) else None
  }

  method FirstDivergence(tm: TextModel, previous: RequestContent, current: RequestContent,
                         previousHashes: LayeredHashes, currentHashes: LayeredHashes)
    returns (hint: Option<DivergenceHint>)
    ensures IsFirstDivergent(previousHashes, currentHashes, LayerOfHint(hint))
    ensures hint.Some? ==>
              && hint.value.layer in CONTENT_LAYERS
              && AgreesUpTo(TextOfLayer(tm, previous, hint.value.layer), TextOfLayer(tm, current, hint.value.layer),
                            hint.value.offset)
  {
    var k := 0;
    while k < |CONTENT_LAYERS|
      invariant k <= |CONTENT_LAYERS|
      invariant forall j | 0 <= j < k ::
                  HashOfLayer(previousHashes, CONTENT_LAYERS[j]) == HashOfLayer(currentHashes, CONTENT_LAYERS[j])
    {
      var layer := CONTENT_LAYERS[k];
      if HashOfLayer(previousHashes, layer) != HashOfLayer(currentHashes, layer) {
        var offset := CommonPrefixLength(TextOfLayer(tm, previous, layer), TextOfLayer(tm, current, layer));
        return Some(DivergenceHint(layer, offset));
      }
      k := k + 1;
    }
    return None;
  }

  // -- classify ---------------------------------------------------------------

  const PREFIX_VOLATILE_RADIUS := 20
  const CHARS_PER_TOKEN := 4

  /** The window of the current prefix around the divergence looks volatile. */
  predicate WindowIsVolatile(tm: TextModel, prefix: string, offset: nat) {
    var start := if offset >= PREFIX_VOLATILE_RADIUS then offset - PREFIX_VOLATILE_RADIUS else 0;
    var end := if offset + PREFIX_VOLATILE_RADIUS <= |prefix| then offset + PREFIX_VOLATILE_RADIUS else |prefix|;
    start <= end && tm.volatile(prefix[start..end])
  }

  predicate RefinesToVolatile(tm: TextModel, c: Classification, current: RequestContent) {
    && c.cause == Some(MemoryPrefixMoved)
    && c.prefixChanged == Some(true) && c.suffixChanged == Some(false) && OnlySystemChanged(c)
    && c.firstDivergent.Some? && c.firstDivergent.value.layer == SystemPrefix && current.system.Some?
    && PrefixOf(tm, current) != ""
    && WindowIsVolatile(tm, PrefixOf(tm, current), c.firstDivergent.value.offset)
  }

  /** One transition being classified: the flags and the cause are filled in first, then refined in place. */
  class ChurnClassification {
    var view: Classification

    constructor (initial: Classification)
      ensures view == initial
    {
      view := initial;
    }

    /** A prefix-only cause becomes a leaked volatile value when the text around the divergence looks like one. */
    method RefinePrefixVolatility(tm: TextModel, current: RequestContent)
      modifies this
      ensures view == if RefinesToVolatile(tm, old(view), current)
                      then old(view).(cause := Some(VolatileValueInPrefix),
                                      confidence := Some(Confidence(BaseConfidence(VolatileValueInPrefix), old(view))))
                      else old(view)
    {
      if view.cause != Some(MemoryPrefixMoved) {
        return;
      }
      if !(view.prefixChanged == Some(true) && view.suffixChanged == Some(false)) {
        return;
      }
      if !OnlySystemChanged(view) {
        return;
      }
      var hint := view.firstDivergent;
      if hint == None || hint.value.layer != SystemPrefix || current.system == None {
        return;
      }
      var prefix := PrefixOf(tm, current);
      if prefix == "" {
        return;
      }
      if WindowIsVolatile(tm, prefix, hint.value.offset) {
        view := view.(cause := Some(VolatileValueInPrefix),
                      confidence := Some(Confidence(BaseConfidence(VolatileValueInPrefix), view)));
      }
    }
  }

  /** What a finished classification of a content pair says. */
  ghost predicate Classifies(tm: TextModel, previous: RequestContent, current: RequestContent, identityMoved: bool,
                             c: Classification)
  {
    var before, after := ToHashes(tm, previous), ToHashes(tm, current);
    var first := ClassifySnapshots(before, after, identityMoved);
    && IsFirstDivergent(before, after, LayerOfHint(c.firstDivergent))
    && (c.firstDivergent.Some? ==>
          && c.firstDivergent.value.layer in CONTENT_LAYERS
          && AgreesUpTo(TextOfLayer(tm, previous, c.firstDivergent.value.layer),
                        TextOfLayer(tm, current, c.firstDivergent.value.layer), c.firstDivergent.value.offset))
    && c.lossTokens.Some? && IsPrefixLoss(tm.request(previous), tm.request(current), c.lossTokens.value)
    && var raw := first.(firstDivergent := c.firstDivergent, lossTokens := c.lossTokens);
    c == if RefinesToVolatile(tm, raw, current)
         then raw.(cause := Some(VolatileValueInPrefix),
                   confidence := Some(Confidence(BaseConfidence(VolatileValueInPrefix), raw)))
         else raw
  }

  /** The characters of the previous request beyond the common prefix, in tokens; nothing for equal requests. */
  ghost predicate IsPrefixLoss(previous: string, current: string, loss: nat) {
    exists n: nat :: AgreesUpTo(previous, current, n) && loss == (|previous| - n) / CHARS_PER_TOKEN
  }

  method Classify(tm: TextModel, previous: RequestContent, current: RequestContent, identityMoved: bool)
    returns (c: ChurnClassification)
    ensures fresh(c) && Classifies(tm, previous, current, identityMoved, c.view)
  {
    var previousHashes, currentHashes := ToHashes(tm, previous), ToHashes(tm, current);
    c := new ChurnClassification(ClassifySnapshots(previousHashes, currentHashes, identityMoved));
    var previousText, currentText := tm.request(previous), tm.request(current);
    if previousText == currentText {
      c.view := c.view.(lossTokens := Some(0));
      assert previousText[..|previousText|] == currentText[..|previousText|];
      assert AgreesUpTo(previousText, currentText, |previousText|);
    } else {
      var common := CommonPrefixLength(previousText, currentText);
      c.view := c.view.(lossTokens := Some((|previousText| - common) / CHARS_PER_TOKEN));
    }
    var hint := FirstDivergence(tm, previous, current, previousHashes, currentHashes);
    c.view := c.view.(firstDivergent := hint);
    c.RefinePrefixVolatility(tm, current);
  }

  // -- the two diagnoses agree ------------------------------------------------

  /** The content layer a cause blames; identity causes and the flat fallbacks blame none. */
  function BlamedLayer(cause: Cause): Option<Layer> {
    match cause
    case MemoryPrefixMoved => Some(SystemPrefix)
    case VolatileValueInPrefix => Some(SystemPrefix)
    case VolatileSuffix => Some(SystemSuffix)
    case SystemSuffixChurn => Some(SystemSuffix)
    case ToolListMutation => Some(Tools)
    case HistoryRewritten => Some(HistoryBody)
    case HistoryBoundaryChurn => Some(HistoryTail)
    case _ => None
  }

  /** The prompt content of the two requests is the same; an absent system prompt counts as an empty one. */
  predicate SameContent(a: RequestContent, b: RequestContent) {
    SystemText(a) == SystemText(b) && a.tools == b.tools && a.messages == b.messages
  }

  /** A system prompt changed iff one of its two sub-layers did, a conversation iff its body or tail did. */
  lemma LayersDetermineContent(tm: TextModel, a: RequestContent, b: RequestContent)
    ensures SystemText(a) == SystemText(b) <==> PrefixOf(tm, a) == PrefixOf(tm, b) && SuffixOf(tm, a) == SuffixOf(tm, b)
    ensures a.messages == b.messages <==> BodyOf(a) == BodyOf(b) && TailOf(a) == TailOf(b)
    ensures a.tools == b.tools <==> ToHashes(tm, a).tools == ToHashes(tm, b).tools
  {
    assert SystemText(a) == PrefixOf(tm, a) + SuffixOf(tm, a) && SystemText(b) == PrefixOf(tm, b) + SuffixOf(tm, b);
    assert a.messages == BodyOf(a) + TailOf(a) && b.messages == BodyOf(b) + TailOf(b);
  }

  lemma FirstDivergentIsUnique(previous: LayeredHashes, current: LayeredHashes, a: Option<Layer>, b: Option<Layer>)
    requires IsFirstDivergent(previous, current, a) && IsFirstDivergent(previous, current, b)
    ensures a == b
  {
    assert forall j | 0 <= j < |CONTENT_LAYERS| :: CONTENT_LAYERS[j] in CONTENT_LAYERS;
  }

  /** The first divergent layer, by cases on which hashes differ. */
  function FirstByHash(previous: LayeredHashes, current: LayeredHashes): Option<Layer> {
    if previous.systemPrefix != current.systemPrefix then Some(SystemPrefix)
    else if previous.systemSuffix != current.systemSuffix then Some(SystemSuffix)
    else if previous.tools != current.tools then Some(Tools)
    else if previous.historyBody != current.historyBody then Some(HistoryBody)
    else if previous.historyTail != current.historyTail then Some(HistoryTail)
    else None
  }

  lemma FirstByHashIsFirst(previous: LayeredHashes, current: LayeredHashes)
    ensures IsFirstDivergent(previous, current, FirstByHash(previous, current))
  {
    var l := FirstByHash(previous, current);
    assert CONTENT_LAYERS[0] == SystemPrefix && CONTENT_LAYERS[1] == SystemSuffix && CONTENT_LAYERS[2] == Tools
        && CONTENT_LAYERS[3] == HistoryBody && CONTENT_LAYERS[4] == HistoryTail;
  }

  /** For every content-derived pair with unchanged route and model: the cause blames exactly the layer the content search
      returns, and neither blames any layer exactly when the content is the same. */
  lemma DiagnosesAgree(tm: TextModel, previous: RequestContent, current: RequestContent, identityMoved: bool,
                       c: Classification)
    requires previous.route == current.route && previous.model == current.model
    requires Classifies(tm, previous, current, identityMoved, c)
    ensures LayerOfHint(c.firstDivergent) == if c.cause.Some? then BlamedLayer(c.cause.value) else None
    ensures c.firstDivergent.None? <==> SameContent(previous, current)
  {
    var before, after := ToHashes(tm, previous), ToHashes(tm, current);
    FirstByHashIsFirst(before, after);
    FirstDivergentIsUnique(before, after, FirstByHash(before, after), LayerOfHint(c.firstDivergent));
    LayersDetermineContent(tm, previous, current);
    BlameFollowsHashes(before, after, identityMoved);
  }

  predicate AllPresent(h: LayeredHashes) {
    h.systemPrefix.Some? && h.systemSuffix.Some? && h.tools.Some? && h.historyBody.Some? && h.historyTail.Some?
  }

  lemma BlameFollowsHashes(before: LayeredHashes, after: LayeredHashes, identityMoved: bool)
    requires AllPresent(before) && AllPresent(after) && before.route == after.route && before.model == after.model
    requires before.system == after.system <==>
             before.systemPrefix == after.systemPrefix && before.systemSuffix == after.systemSuffix
    requires before.history == after.history <==>
             before.historyBody == after.historyBody && before.historyTail == after.historyTail
    ensures var cause := ClassifySnapshots(before, after, identityMoved).cause;
            FirstByHash(before, after) == if cause.Some? then BlamedLayer(cause.value) else None
  {
  }

  /** The flat flags follow from the layered ones, as they do for content-derived pairs. */
  predicate FlatFollowsLayered(c: Classification) {
    && c.prefixChanged.Some? && c.suffixChanged.Some? && c.bodyChanged.Some? && c.tailChanged.Some?
    && (c.systemChanged <==> c.prefixChanged.value || c.suffixChanged.value)
    && (c.historyChanged <==> c.bodyChanged.value || c.tailChanged.value)
  }

  lemma ContentFlagsFollow(tm: TextModel, previous: RequestContent, current: RequestContent)
    ensures var c := Flags(ToHashes(tm, previous), ToHashes(tm, current));
            && FlatFollowsLayered(c)
            && (c.systemChanged <==> SystemText(previous) != SystemText(current))
            && (c.toolsChanged <==> previous.tools != current.tools)
            && (c.historyChanged <==> previous.messages != current.messages)
  {
    LayersDetermineContent(tm, previous, current);
  }

  lemma CauseCoversFlags(c: Classification, identityMoved: bool)
    requires FlatFollowsLayered(c)
    ensures var cause := PrimaryCause(c, identityMoved);
            && cause != Some(SystemPromptChanged) && cause != Some(ConversationChanged)
            && (cause.None? <==> ChangedFlatLayers(c) == 0 && !identityMoved)
            && (cause == Some(IdentityChangedElsewhere) ==> ChangedFlatLayers(c) == 0)
  {
  }

  /** For every content-derived pair: the flat fallbacks are never used, and there is no cause exactly when nothing
      tracked changed and no identity move was asserted. */
  lemma CauseIsAbsentOnlyWithoutChange(tm: TextModel, previous: RequestContent, current: RequestContent,
                                       identityMoved: bool, c: Classification)
    requires Classifies(tm, previous, current, identityMoved, c)
    ensures c.cause != Some(SystemPromptChanged) && c.cause != Some(ConversationChanged)
    ensures c.cause.None? <==>
              && SameContent(previous, current) && previous.route == current.route
              && previous.model == current.model && previous.cacheKey == current.cacheKey && !identityMoved
    ensures c.cause == Some(IdentityChangedElsewhere) ==> ChangedFlatLayers(c) == 0
  {
    ContentFlagsFollow(tm, previous, current);
    CauseCoversFlags(Flags(ToHashes(tm, previous), ToHashes(tm, current)), identityMoved);
  }

  /** A diagnosis has a confidence exactly when it has a cause, never below one half nor above the cause's base; each
      further changed layer lowers it by a tenth until the floor. */
  lemma ConfidenceIsBounded(previous: LayeredHashes, current: LayeredHashes, identityMoved: bool)
    ensures var c := ClassifySnapshots(previous, current, identityMoved);
            && (c.confidence.Some? <==> c.cause.Some?)
            && (c.cause.Some? ==>
                  && 50 <= c.confidence.value <= BaseConfidence(c.cause.value)
                  && (ChangedFlatLayers(c) <= 1 ==> c.confidence.value == BaseConfidence(c.cause.value)))
  {
  }

  /** The loss estimate is unambiguous, and zero when the previous request survives as a prefix of the current one. */
  lemma LossIsWhatFollowsTheCommonPrefix(previous: string, current: string, a: nat, b: nat)
    requires IsPrefixLoss(previous, current, a) && IsPrefixLoss(previous, current, b)
    ensures a == b && a <= |previous| / CHARS_PER_TOKEN
    ensures previous <= current ==> a == 0
  {
    var m: nat :| AgreesUpTo(previous, current, m) && a == (|previous| - m) / CHARS_PER_TOKEN;
    var n: nat :| AgreesUpTo(previous, current, n) && b == (|previous| - n) / CHARS_PER_TOKEN;
    AgreementIsUnique(previous, current, m, n);
    if previous <= current {
      assert AgreesUpTo(previous, current, |previous|);
      AgreementIsUnique(previous, current, m, |previous|);
    }
  }
}
