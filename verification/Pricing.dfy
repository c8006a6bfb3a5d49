/** Token pricing (pricing.py): the inputs of the economic gate. */
module Pricing {
  const TOKENS_PER_PRICE: real := 1_000_000.0

  datatype Usage = Usage(promptTokens: nat, completionTokens: nat, cacheReadTokens: nat, cacheWriteTokens: nat)

  /** Prices per million tokens. */
  datatype PricingTable = PricingTable(input: real, output: real, cacheRead: real, cacheWrite: real)

  predicate ValidPricing(pricing: PricingTable) {
    pricing.input >= 0.0 && pricing.output >= 0.0 && pricing.cacheRead >= 0.0 && pricing.cacheWrite >= 0.0
  }

  function EstimateCost(usage: Usage, pricing: PricingTable): (cost: real)
    requires ValidPricing(pricing)
    ensures cost >= 0.0
  {
    var rest := usage.promptTokens - usage.cacheReadTokens - usage.cacheWriteTokens;
    var uncached := if rest >= 0 then rest else 0;
    (uncached as real * pricing.input
     + usage.cacheReadTokens as real * pricing.cacheRead
     + usage.cacheWriteTokens as real * pricing.cacheWrite
     + usage.completionTokens as real * pricing.output) / TOKENS_PER_PRICE
  }

  datatype ResumeCosts = ResumeCosts(cold: real, cached: real)

  /** A cold resume is billed at the write rate when the provider publishes one, else as plain input. */
  function EstimateResumeCosts(prefix: nat, pricing: PricingTable, completion: nat := 0): ResumeCosts
    requires ValidPricing(pricing)
  {
    var cold :=
      if pricing.cacheWrite > 0.0
      then Usage(prefix, completion, 0, prefix)
      else Usage(prefix, completion, 0, 0);
    ResumeCosts(EstimateCost(cold, pricing), EstimateCost(Usage(prefix, completion, prefix, 0), pricing))
  }

  /** The bounded warm shape: read the whole prefix back, produce one token. */
  function NextWarmCost(prefix: nat, pricing: PricingTable): real
    requires ValidPricing(pricing)
  {
    EstimateCost(Usage(prefix, 1, prefix, 0), pricing)
  }

  /** The rate at which a cold resume re-creates the prefix. */
  function ColdRate(pricing: PricingTable): real {
    if pricing.cacheWrite > 0.0 then pricing.cacheWrite else pricing.input
  }

  /** The avoidable loss is the rate difference on the prefix alone; the completion cancels out. It is
      positive exactly when there is a prefix and recreating it is dearer than reading it, so a provider
      whose cache writes are free still has something to save. */
  lemma AvoidableLossIsTheRateDifference(prefix: nat, pricing: PricingTable, completion: nat)
    requires ValidPricing(pricing)
    ensures var costs := EstimateResumeCosts(prefix, pricing, completion);
            && costs.cold - costs.cached == prefix as real * (ColdRate(pricing) - pricing.cacheRead) / TOKENS_PER_PRICE
            && (costs.cold > costs.cached <==> prefix > 0 && ColdRate(pricing) > pricing.cacheRead)
  {
    var costs := EstimateResumeCosts(prefix, pricing, completion);
    var gap := ColdRate(pricing) - pricing.cacheRead;
    assert (costs.cold - costs.cached) * TOKENS_PER_PRICE == prefix as real * gap;
    if prefix > 0 {
      SignOfProduct(prefix as real, gap);
    }
  }

  lemma SignOfProduct(x: real, y: real)
    requires x > 0.0
    ensures x * y > 0.0 <==> y > 0.0
  {
  }

  /** A warm costs a cached resume plus one output token. */
  lemma WarmCostsOneTokenMoreThanCachedResume(prefix: nat, pricing: PricingTable)
    requires ValidPricing(pricing)
    ensures NextWarmCost(prefix, pricing) == EstimateResumeCosts(prefix, pricing).cached + pricing.output / TOKENS_PER_PRICE
  {
  }
}
