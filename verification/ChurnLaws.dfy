/** What a finished churn diagnosis says, on the contents of the two requests (churn.py). */
module ChurnLaws {
  import opened Wrappers
  import opened ChurnDiagnosis

  /** The parts are a cut of the whole: nothing is lost, the cut of the system prompt is where the volatile region starts,
      and the tail is the last message alone. */
  lemma PartsMakeTheWhole(tm: TextModel, c: RequestContent)
    ensures PrefixOf(tm, c) + SuffixOf(tm, c) == if c.system.Some? then c.system.value else ""
    ensures |PrefixOf(tm, c)| <= tm.boundary(SystemText(c)) && (SuffixOf(tm, c) != "" ==> |PrefixOf(tm, c)| == tm.boundary(SystemText(c)))
    ensures BodyOf(c) + TailOf(c) == c.messages && (c.messages != [] ==> |TailOf(c)| == 1)
  {
  }

  /** What differs between two requests. */
  datatype Difference = Difference(
    prefix: bool, suffix: bool, tools: bool, body: bool, tail: bool, route: bool, model: bool, cacheKey: bool)
  {
    predicate OnlySystem() {
      (prefix || suffix) && !tools && !body && !tail && !route && !model && !cacheKey
    }

    /** Of system prompt, tools, history, route, model and cache key: how many differ. */
    function Parts(): nat {
      (if prefix || suffix then 1 else 0) + (if tools then 1 else 0) + (if body || tail then 1 else 0)
      + (if route then 1 else 0) + (if model then 1 else 0) + (if cacheKey then 1 else 0)
    }
  }

  function DifferenceOf(tm: TextModel, a: RequestContent, b: RequestContent): Difference {
    Difference(
      PrefixOf(tm, a) != PrefixOf(tm, b), SuffixOf(tm, a) != SuffixOf(tm, b), a.tools != b.tools,
      BodyOf(a) != BodyOf(b), TailOf(a) != TailOf(b), a.route != b.route, a.model != b.model, a.cacheKey != b.cacheKey)
  }

  /** The flags say which parts differ. */
  predicate FlagsSay(c: Classification, d: Difference) {
    && c.prefixChanged == Some(d.prefix) && c.suffixChanged == Some(d.suffix) && c.systemChanged == (d.prefix || d.suffix)
    && c.toolsChanged == d.tools && c.routeChanged == d.route && c.modelChanged == d.model && c.cacheKeyChanged == d.cacheKey
    && c.bodyChanged == Some(d.body) && c.tailChanged == Some(d.tail) && c.historyChanged == (d.body || d.tail)
  }

  /** The first content layer that differs. */
  predicate FirstOf(d: Difference, layer: Option<Layer>) {
    && (layer == Some(SystemPrefix) <==> d.prefix)
    && (layer == Some(SystemSuffix) <==> !d.prefix && d.suffix)
    && (layer == Some(Tools) <==> !d.prefix && !d.suffix && d.tools)
    && (layer == Some(HistoryBody) <==> !d.prefix && !d.suffix && !d.tools && d.body)
    && (layer == Some(HistoryTail) <==> !d.prefix && !d.suffix && !d.tools && !d.body && d.tail)
    && (layer == None <==> !d.prefix && !d.suffix && !d.tools && !d.body && !d.tail)
  }

  lemma HashesShowTheDifferences(tm: TextModel, previous: RequestContent, current: RequestContent)
    ensures var before, after, d := ToHashes(tm, previous), ToHashes(tm, current), DifferenceOf(tm, previous, current);
            FlagsSay(Flags(before, after), d) && FirstOf(d, FirstByHash(before, after))
  {
    LayersDetermineContent(tm, previous, current);
  }

  /** Every flag of a finished classification, and its first divergent layer, are read off the contents. */
  lemma FlagsAreTheDifferences(tm: TextModel, previous: RequestContent, current: RequestContent, identityMoved: bool, c: Classification)
    requires Classifies(tm, previous, current, identityMoved, c)
    ensures FlagsSay(c, DifferenceOf(tm, previous, current))
    ensures FirstOf(DifferenceOf(tm, previous, current), LayerOfHint(c.firstDivergent))
  {
    var before, after := ToHashes(tm, previous), ToHashes(tm, current);
    HashesShowTheDifferences(tm, previous, current);
    FirstByHashIsFirst(before, after);
    FirstDivergentIsUnique(before, after, FirstByHash(before, after), LayerOfHint(c.firstDivergent));
  }

  /** The twenty characters on each side of the place look volatile. */
  predicate LeakAt(tm: TextModel, prefix: string, offset: nat) {
    var from, to := if offset > 20 then offset - 20 else 0, if offset + 20 < |prefix| then offset + 20 else |prefix|;
    from <= to && prefix != "" && tm.volatile(prefix[from..to])
  }

  lemma WindowIsLeak(tm: TextModel, prefix: string, offset: nat)
    ensures prefix != "" && WindowIsVolatile(tm, prefix, offset) <==> LeakAt(tm, prefix, offset)
  {
  }

  /** Exactly which cause follows from which parts, before the volatile refinement. */
  predicate CauseFits(d: Difference, moved: bool, cause: Option<Cause>) {
    && (cause == Some(RouterAffinityLoss) <==> d.route)
    && (cause == Some(ProviderFailover) <==> !d.route && d.model)
    && (cause in {Some(MemoryPrefixMoved), Some(VolatileValueInPrefix)} <==> !d.route && !d.model && d.prefix)
    && (cause == Some(SystemSuffixChurn) <==> !d.route && !d.model && !d.prefix && d.suffix && d.OnlySystem())
    && (cause == Some(VolatileSuffix) <==> !d.route && !d.model && !d.prefix && d.suffix && !d.OnlySystem())
    && (cause == Some(ToolListMutation) <==> !d.route && !d.model && !d.prefix && !d.suffix && d.tools)
    && (cause == Some(HistoryRewritten) <==> !d.route && !d.model && !d.prefix && !d.suffix && !d.tools && d.body)
    && (cause == Some(HistoryBoundaryChurn) <==>
          !d.route && !d.model && !d.prefix && !d.suffix && !d.tools && !d.body && d.tail)
    && (cause == Some(CacheKeyMutation) <==> d.cacheKey && d.Parts() == 1)
    && (cause == Some(IdentityChangedElsewhere) <==> d.Parts() == 0 && moved)
  }

  lemma CauseOfParts(c: Classification, d: Difference, moved: bool)
    requires FlagsSay(c, d)
    ensures CauseFits(d, moved, PrimaryCause(c, moved)) && PrimaryCause(c, moved) != Some(VolatileValueInPrefix)
    ensures OnlySystemChanged(c) <==> d.OnlySystem()
    ensures ChangedFlatLayers(c) == d.Parts()
  {
  }

  /** The prefix alone changed in the whole request, and looks volatile where it first differs. */
  predicate LeaksIntoPrefix(tm: TextModel, d: Difference, current: RequestContent, hint: Option<DivergenceHint>) {
    && d.prefix && !d.suffix && d.OnlySystem()
    && hint.Some? && current.system.Some? && LeakAt(tm, PrefixOf(tm, current), hint.value.offset)
  }

  /** Exactly which cause is named: a route change before a model change before the earliest changed part of the prompt
      before the cache key before an identity move nothing explains. A suffix that changed alone in the whole request has
      its own name, and so has a prefix that did and looks volatile where it first differs. */
  lemma CauseExactly(tm: TextModel, previous: RequestContent, current: RequestContent, identityMoved: bool, c: Classification)
    requires Classifies(tm, previous, current, identityMoved, c)
    ensures var d := DifferenceOf(tm, previous, current);
            && CauseFits(d, identityMoved, c.cause)
            && (c.cause == Some(VolatileValueInPrefix) <==> LeaksIntoPrefix(tm, d, current, c.firstDivergent))
            && (c.firstDivergent.Some? ==>
                  AgreesUpTo(TextOfLayer(tm, previous, c.firstDivergent.value.layer),
                             TextOfLayer(tm, current, c.firstDivergent.value.layer), c.firstDivergent.value.offset))
  {
    var d, flags := DifferenceOf(tm, previous, current), Flags(ToHashes(tm, previous), ToHashes(tm, current));
    HashesShowTheDifferences(tm, previous, current);
    FlagsAreTheDifferences(tm, previous, current, identityMoved, c);
    CauseOfParts(flags, d, identityMoved);
    if c.firstDivergent.Some? {
      WindowIsLeak(tm, PrefixOf(tm, current), c.firstDivergent.value.offset);
    }
  }

  /** Ten hundredths off a base for every part that differs beyond the first, but never below a half. */
  predicate Lowered(base: nat, d: Difference, confidence: nat) {
    var lowered := base - 10 * (d.Parts() - 1);
    if d.Parts() <= 1 then confidence == base
    else confidence >= 50 && confidence >= lowered && confidence in {50, lowered}
  }

  /** How sure each diagnosis is, in hundredths. */
  predicate IsSure(d: Difference, cause: Cause, sure: nat) {
    && (cause == RouterAffinityLoss ==> Lowered(92, d, sure))
    && (cause == MemoryPrefixMoved ==> Lowered(90, d, sure))
    && (cause in {ProviderFailover, VolatileSuffix} ==> Lowered(85, d, sure))
    && (cause in {VolatileValueInPrefix, SystemSuffixChurn} ==> sure == 85)
    && (cause == ToolListMutation ==> Lowered(80, d, sure))
    && (cause == HistoryRewritten ==> Lowered(75, d, sure))
    && (cause == HistoryBoundaryChurn ==> Lowered(70, d, sure))
    && (cause == CacheKeyMutation ==> sure == 70)
    && (cause == IdentityChangedElsewhere ==> sure == 60)
  }

  lemma ConfidenceOfParts(c: Classification, d: Difference, cause: Cause, moved: bool)
    requires CauseFits(d, moved, Some(cause)) && ChangedFlatLayers(c) == d.Parts()
    requires cause == VolatileValueInPrefix ==> d.Parts() == 1
    ensures IsSure(d, cause, Confidence(BaseConfidence(cause), c))
  {
    assert cause in {SystemSuffixChurn, CacheKeyMutation} ==> d.Parts() == 1;
  }

  /** A finished classification is as sure as its cause and the number of changed parts make it. */
  lemma ConfidenceExactly(tm: TextModel, previous: RequestContent, current: RequestContent, identityMoved: bool, c: Classification)
    requires Classifies(tm, previous, current, identityMoved, c)
    ensures c.confidence.Some? <==> c.cause.Some?
    ensures c.cause.Some? ==> IsSure(DifferenceOf(tm, previous, current), c.cause.value, c.confidence.value)
  {
    if c.cause.Some? {
      var d := DifferenceOf(tm, previous, current);
      CauseExactly(tm, previous, current, identityMoved, c);
      FlagsAreTheDifferences(tm, previous, current, identityMoved, c);
      PartsAreFlatLayers(c, d);
      ConfidenceOfParts(c, d, c.cause.value, identityMoved);
      ConfidenceIsOfItsCause(tm, previous, current, identityMoved, c);
    }
  }

  lemma PartsAreFlatLayers(c: Classification, d: Difference)
    requires FlagsSay(c, d)
    ensures ChangedFlatLayers(c) == d.Parts()
  {
  }

  lemma ConfidenceIsOfItsCause(tm: TextModel, previous: RequestContent, current: RequestContent, identityMoved: bool, c: Classification)
    requires Classifies(tm, previous, current, identityMoved, c) && c.cause.Some?
    ensures c.confidence == Some(Confidence(BaseConfidence(c.cause.value), c))
  {
  }

  /** The loss of a classified pair (IsPrefixLoss on its two request texts) is the length of what follows their common prefix
      in the previous one, over four, rounded down. */
  lemma LossExactly(previous: string, current: string, loss: nat, n: nat)
    requires IsPrefixLoss(previous, current, loss) && AgreesUpTo(previous, current, n)
    ensures 4 * loss <= |previous| - n < 4 * loss + 4
  {
    var m: nat :| AgreesUpTo(previous, current, m) && loss == (|previous| - m) / CHARS_PER_TOKEN;
    AgreementIsUnique(previous, current, m, n);
  }
}
