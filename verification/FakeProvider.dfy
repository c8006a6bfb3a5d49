/** The deterministic cache simulator (fake_provider.py): the ground truth the learner and the scheduler are
    judged against. */
module FakeProvider {
  import opened Wrappers
  import opened Leases

  /** `cache[fingerprint]` is when the entry expires. */
  type Cache = map<Fingerprint, real>

  datatype ProviderConfig = ProviderConfig(ttl: real, refreshOnHit: bool)

  predicate IsCached(cache: Cache, fp: Fingerprint, now: real) {
    fp in cache && now < cache[fp]
  }

  /** The cache after one completion: a miss writes the entry, a hit extends it only when configured to. */
  function AfterRequest(config: ProviderConfig, cache: Cache, fp: Fingerprint, now: real): Cache {
    if IsCached(cache, fp, now) && !config.refreshOnHit then cache else cache[fp := now + config.ttl]
  }

  /** The prefix is never empty, so a hit always reports cache reads and a miss always reports none. */
  function OutcomeOf(cache: Cache, fp: Fingerprint, now: real): Outcome {
    if IsCached(cache, fp, now) then ConfirmedHit else MissRebuilt
  }

  class FakeProvider {
    const config: ProviderConfig
    var cache: Cache

    constructor (config: ProviderConfig)
      ensures this.config == config && cache == map[]
    {
      this.config := config;
      cache := map[];
    }

    method Complete(fp: Fingerprint, now: real) returns (outcome: Outcome)
      modifies this
      ensures outcome == OutcomeOf(old(cache), fp, now)
      ensures cache == AfterRequest(config, old(cache), fp, now)
    {
      var hit := fp in cache && now < cache[fp];
      if hit {
        if config.refreshOnHit {
          cache := cache[fp := now + config.ttl];
        }
        outcome := ConfirmedHit;
      } else {
        cache := cache[fp := now + config.ttl];
        outcome := MissRebuilt;
      }
    }
  }
}
