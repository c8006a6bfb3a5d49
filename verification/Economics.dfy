/** The warm/stop decision and its budget arithmetic (economics.py). */
module Economics {
  datatype WarmAction = Warm | EconomicStop | SkipUnknownPricing | SkipNoContinuation | SkipNotEconomic

  datatype EconomicConfig = EconomicConfig(
    enabled: bool, budgetRatio: real, safetyMargin: real, minimumExpectedSavings: real)

  predicate ValidConfig(config: EconomicConfig) {
    && 0.0 < config.budgetRatio <= 1.0
    && config.safetyMargin >= 0.0
    && config.minimumExpectedSavings >= 0.0
  }

  datatype GateInput = GateInput(
    coldResumeCost: real, cachedResumeCost: real, nextWarmCost: real, cumulativeWarmCost: real,
    resumeProbability: real, pricingKnown: bool)

  datatype WarmDecision = WarmDecision(
    action: WarmAction, expectedAvoidableLoss: real, expectedValue: real,
    nextWarmCost: real, cumulativeWarmCost: real, maxWarmBudget: real, remainingBudget: real)
  {
    predicate ShouldWarm() { action == Warm }
  }

  function Decide(config: EconomicConfig, input: GateInput, action: WarmAction, avoidable: real, expected: real)
    : WarmDecision
  {
    var budget := expected * config.budgetRatio;
    WarmDecision(action, avoidable, expected, input.nextWarmCost, input.cumulativeWarmCost,
                 budget, budget - input.cumulativeWarmCost)
  }

  function Evaluate(config: EconomicConfig, input: GateInput): WarmDecision {
    if !input.pricingKnown then
      Decide(config, input, SkipUnknownPricing, 0.0, 0.0)
    else if input.resumeProbability <= 0.0 then
      Decide(config, input, SkipNoContinuation, 0.0, 0.0)
    else
      var avoidable := input.coldResumeCost - input.cachedResumeCost;
      if avoidable <= 0.0 then
        Decide(config, input, SkipNotEconomic, avoidable, 0.0)
      else
        Decide(config, input, Weigh(config, input, ExpectedValue(input), Budget(config, input)), avoidable,
               ExpectedValue(input))
  }

  /** The avoidable loss, scaled by the chance that the prefix is needed again. */
  function ExpectedValue(input: GateInput): real {
    input.resumeProbability * (input.coldResumeCost - input.cachedResumeCost)
  }

  function Budget(config: EconomicConfig, input: GateInput): real {
    ExpectedValue(input) * config.budgetRatio
  }

  /** The last three checks: the value of the next warm, the budget, the total spend. */
  function Weigh(config: EconomicConfig, input: GateInput, expected: real, budget: real): WarmAction {
    var next, cumulative := input.nextWarmCost, input.cumulativeWarmCost;
    if expected <= next + config.safetyMargin then SkipNotEconomic
    else if next >= budget - cumulative then EconomicStop
    else if expected - (cumulative + next) < config.minimumExpectedSavings then SkipNotEconomic
    else Warm
  }

  /** Exactly when each answer is given, for the value protected and the budget it allows: the five answers exclude one
      another and one is always given. */
  lemma GateAnswersExactly(config: EconomicConfig, input: GateInput, value: real, budget: real)
    requires value == input.resumeProbability * (input.coldResumeCost - input.cachedResumeCost)
    requires budget == config.budgetRatio * value
    ensures var action, spent := Evaluate(config, input).action, input.cumulativeWarmCost + input.nextWarmCost;
            var open := input.pricingKnown && input.resumeProbability > 0.0;
            var worth := input.coldResumeCost > input.cachedResumeCost && value > input.nextWarmCost + config.safetyMargin;
            && (action == Warm <==> open && worth && spent < budget && value - spent >= config.minimumExpectedSavings)
            && (action == EconomicStop <==> open && worth && spent >= budget)
            && (action == SkipNotEconomic <==>
                  open && !(worth && (spent >= budget || value - spent >= config.minimumExpectedSavings)))
            && (action == SkipNoContinuation <==> input.pricingKnown && input.resumeProbability <= 0.0)
            && (action == SkipUnknownPricing <==> !input.pricingKnown)
  {
    assert ExpectedValue(input) == value;
    BudgetIsTheShare(config, input, value, budget);
  }

  lemma BudgetIsTheShare(config: EconomicConfig, input: GateInput, value: real, budget: real)
    requires ExpectedValue(input) == value && budget == config.budgetRatio * value
    ensures Budget(config, input) == budget
  {
  }

  /** What a decision reports beside its action. */
  lemma DecisionReportsExactly(config: EconomicConfig, input: GateInput)
    ensures var d, loss := Evaluate(config, input), input.coldResumeCost - input.cachedResumeCost;
            var open := input.pricingKnown && input.resumeProbability > 0.0;
            && d.expectedAvoidableLoss == (if open then loss else 0.0)
            && d.expectedValue == (if open && loss > 0.0 then input.resumeProbability * loss else 0.0)
            && d.maxWarmBudget == d.expectedValue * config.budgetRatio
            && d.remainingBudget == d.maxWarmBudget - input.cumulativeWarmCost
            && d.nextWarmCost == input.nextWarmCost && d.cumulativeWarmCost == input.cumulativeWarmCost
  {
  }

  /** A WARM decision fits the next warm strictly inside the budget, and total spend stays strictly
      below the value the warm protects. */
  lemma WarmLeavesValueAboveSpend(config: EconomicConfig, input: GateInput)
    requires ValidConfig(config)
    ensures var d := Evaluate(config, input);
            d.ShouldWarm() ==>
              && input.cumulativeWarmCost + input.nextWarmCost < d.maxWarmBudget <= d.expectedValue
              && d.expectedValue > input.nextWarmCost + config.safetyMargin
              && d.maxWarmBudget == config.budgetRatio * input.resumeProbability * d.expectedAvoidableLoss
              && d.expectedAvoidableLoss == input.coldResumeCost - input.cachedResumeCost > 0.0
  {
    var d := Evaluate(config, input);
    if d.ShouldWarm() {
      ProductIsMonotone(d.expectedAvoidableLoss, d.expectedAvoidableLoss, 0.0, input.resumeProbability);
      ProductIsMonotone(d.expectedValue, d.expectedValue, config.budgetRatio, 1.0);
    }
  }

  /** `better` is at least as favourable to warming as `worse`. */
  predicate NoWorse(better: GateInput, worse: GateInput) {
    && (worse.pricingKnown ==> better.pricingKnown)
    && better.nextWarmCost <= worse.nextWarmCost
    && better.cumulativeWarmCost <= worse.cumulativeWarmCost
    && better.resumeProbability >= worse.resumeProbability
    && better.coldResumeCost - better.cachedResumeCost >= worse.coldResumeCost - worse.cachedResumeCost
  }

  /** The gate is antitone in both costs and monotone in avoidable loss and resume probability. */
  lemma ShouldWarmIsMonotone(config: EconomicConfig, better: GateInput, worse: GateInput)
    requires ValidConfig(config) && NoWorse(better, worse)
    requires Evaluate(config, worse).ShouldWarm()
    ensures Evaluate(config, better).ShouldWarm()
  {
    ValueIsMonotone(config, better, worse);
    WeighingIsMonotone(config, better, worse, ExpectedValue(better), ExpectedValue(worse),
                       Budget(config, better), Budget(config, worse));
  }

  lemma ValueIsMonotone(config: EconomicConfig, better: GateInput, worse: GateInput)
    requires ValidConfig(config) && NoWorse(better, worse)
    requires worse.resumeProbability > 0.0 && worse.coldResumeCost > worse.cachedResumeCost
    ensures ExpectedValue(worse) <= ExpectedValue(better) && Budget(config, worse) <= Budget(config, better)
  {
    ProductIsMonotone(worse.resumeProbability, better.resumeProbability,
                      worse.coldResumeCost - worse.cachedResumeCost, better.coldResumeCost - better.cachedResumeCost);
    ProductIsMonotone(0.0, worse.resumeProbability, 0.0, worse.coldResumeCost - worse.cachedResumeCost);
    ProductIsMonotone(ExpectedValue(worse), ExpectedValue(better), config.budgetRatio, config.budgetRatio);
  }

  lemma WeighingIsMonotone(config: EconomicConfig, better: GateInput, worse: GateInput,
                           value1: real, value0: real, budget1: real, budget0: real)
    requires NoWorse(better, worse) && value0 <= value1 && budget0 <= budget1
    requires Weigh(config, worse, value0, budget0) == Warm
    ensures Weigh(config, better, value1, budget1) == Warm
  {
  }

  lemma ProductIsMonotone(x0: real, x1: real, y0: real, y1: real)
    requires 0.0 <= x0 <= x1 && 0.0 <= y0 <= y1
    ensures x0 * y0 <= x1 * y1
  {
    assert x0 * y0 <= x0 * y1;
    assert x0 * y1 <= x1 * y1;
  }
}
