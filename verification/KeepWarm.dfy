/** The point of the whole program: a lease scheduled in time keeps the provider's entry alive for ever. */
module KeepWarm {
  import opened Wrappers
  import opened Leases
  import opened FakeProvider

  /** One scheduler tick: when it starts, when the provider sees its warm (if one is sent) and when the answer is
      back, with what it cost. */
  datatype Tick = Tick(start: real, served: real, end: real, cost: real)

  /** A lease, the provider's cache, and when the previous tick ended. */
  datatype Kept = Kept(entry: Entry, cache: Cache, idleSince: real)

  function FingerprintOf(k: Kept): Fingerprint {
    k.entry.lease.identity.fingerprint
  }

  predicate Sends(s: Settings, k: Kept, tick: Tick) {
    var d := DecideEvaluation(s, k.entry, tick.start);
    d.verdict.Proceed? && LockedRefusal(s, d.entry, d.verdict.generation, true) == None
  }

  function AfterTick(s: Settings, config: ProviderConfig, k: Kept, tick: Tick): Kept {
    var d := DecideEvaluation(s, k.entry, tick.start);
    if !Sends(s, k, tick) then Kept(d.entry, k.cache, tick.start)
    else
      var outcome := OutcomeOf(k.cache, FingerprintOf(k), tick.served);
      var result := WarmResult(Some(outcome), outcome == MissRebuilt, tick.cost);
      Kept(AfterWarmResult(AfterSend(d.entry), result, tick.end),
           AfterRequest(config, k.cache, FingerprintOf(k), tick.served), tick.end)
  }

  /** Ticks start at most `gap` after the previous one ended, a warm takes at most `latency`, and the gate is open when one
      is due. */
  predicate Paced(s: Settings, config: ProviderConfig, k: Kept, ticks: seq<Tick>, gap: real, latency: real)
    decreases |ticks|
  {
    ticks == [] ||
    (&& k.idleSince <= ticks[0].start <= k.idleSince + gap && GateOpen(s, k.entry.lease, ticks[0].start)
     && ticks[0].start <= ticks[0].served <= ticks[0].end <= ticks[0].start + latency
     && Paced(s, config, AfterTick(s, config, k, ticks[0]), ticks[1..], gap, latency))
  }

  /** A watched lease at rest: nothing prevents its warm. */
  predicate Watched(e: Entry) {
    && e.lease.activeTargets != {} && e.lease.state != Invalidated && e.lease.lastCacheTouchAt.Some?
    && !e.runtime.realRequestActive && !e.runtime.warmRequestActive && !e.runtime.circuitOpen
  }

  /** Whether the next due tick will only discard an out-of-date record. */
  predicate Stale(e: Entry) {
    e.runtime.scheduledGeneration.Some? && e.runtime.scheduledGeneration.value != e.lease.generation
  }

  /** The entry outlives the tick that will warm it: the next one, or the one after when a stale record must be
      discarded first. */
  predicate InTime(config: ProviderConfig, k: Kept, gap: real, latency: real) {
    && Watched(k.entry) && FingerprintOf(k) in k.cache
    && k.idleSince + gap + (if Stale(k.entry) then gap else 0.0) + latency < k.cache[FingerprintOf(k)]
    && k.entry.lease.lastCacheTouchAt.value + config.ttl - latency <= k.cache[FingerprintOf(k)]
  }

  /** The scheduler sends real warms, the provider refreshes on hits, and its ttl exceeds the longest wait plus one tick
      interval plus the latency twice. */
  predicate Sustainable(s: Settings, config: ProviderConfig, lease: Lease, gap: real, latency: real) {
    && !s.dryRun && config.refreshOnHit
    && gap >= 0.0 && latency >= 0.0
    && Max(Wait(s, lease), 0.0) + gap + 2.0 * latency < config.ttl
  }

  /** When the lease is due, the economic gate lets its warm through. */
  predicate GateOpen(s: Settings, lease: Lease, at: real) {
    NextDeadline(s, lease).Some? && NextDeadline(s, lease).value <= at ==> GatePasses(s, lease)
  }

  /** One tick: a warm that is sent hits, and the next tick is in time again. */
  lemma TickStaysInTime(s: Settings, config: ProviderConfig, k: Kept, tick: Tick, gap: real, latency: real)
    requires Sustainable(s, config, k.entry.lease, gap, latency) && InTime(config, k, gap, latency)
    requires k.idleSince <= tick.start <= k.idleSince + gap && GateOpen(s, k.entry.lease, tick.start)
    requires tick.start <= tick.served <= tick.end <= tick.start + latency
    ensures Sends(s, k, tick) ==> IsCached(k.cache, FingerprintOf(k), tick.served)
    ensures var k' := AfterTick(s, config, k, tick);
            && InTime(config, k', gap, latency) && Wait(s, k'.entry.lease) == Wait(s, k.entry.lease)
  {
    DeadlineIsTouchPlusWait(s, k.entry.lease);
    if Sends(s, k, tick) {
      HitStaysInTime(s, config, k, tick, gap, latency);
    } else {
      WaitingStaysInTime(s, config, k, tick, gap, latency);
    }
  }

  lemma HitStaysInTime(s: Settings, config: ProviderConfig, k: Kept, tick: Tick, gap: real, latency: real)
    requires Sustainable(s, config, k.entry.lease, gap, latency) && InTime(config, k, gap, latency)
    requires k.idleSince <= tick.start <= k.idleSince + gap
    requires tick.start <= tick.served <= tick.end <= tick.start + latency
    requires Sends(s, k, tick)
    ensures IsCached(k.cache, FingerprintOf(k), tick.served)
    ensures var k' := AfterTick(s, config, k, tick);
            && InTime(config, k', gap, latency) && Wait(s, k'.entry.lease) == Wait(s, k.entry.lease)
  {
    SameTtlSameWait(s, k.entry.lease, AfterTick(s, config, k, tick).entry.lease);
  }

  lemma WaitingStaysInTime(s: Settings, config: ProviderConfig, k: Kept, tick: Tick, gap: real, latency: real)
    requires Sustainable(s, config, k.entry.lease, gap, latency) && InTime(config, k, gap, latency)
    requires k.idleSince <= tick.start <= k.idleSince + gap && GateOpen(s, k.entry.lease, tick.start) && !Sends(s, k, tick)
    requires NextDeadline(s, k.entry.lease) == Some(k.entry.lease.lastCacheTouchAt.value + Wait(s, k.entry.lease))
    ensures var k' := AfterTick(s, config, k, tick);
            && InTime(config, k', gap, latency) && Wait(s, k'.entry.lease) == Wait(s, k.entry.lease)
  {
    SameTtlSameWait(s, k.entry.lease, AfterTick(s, config, k, tick).entry.lease);
  }

  /** At every tick of the run: a warm that is sent is a confirmed hit, the breaker stays closed, and the entry is
      still alive at the latest moment the next tick can start. */
  predicate StaysWarm(s: Settings, config: ProviderConfig, k: Kept, ticks: seq<Tick>, gap: real)
    decreases |ticks|
  {
    ticks == [] ||
    var next := AfterTick(s, config, k, ticks[0]);
    && (Sends(s, k, ticks[0]) ==> OutcomeOf(k.cache, FingerprintOf(k), ticks[0].served) == ConfirmedHit)
    && !next.entry.runtime.circuitOpen
    && IsCached(next.cache, FingerprintOf(next), next.idleSince + gap)
    && StaysWarm(s, config, next, ticks[1..], gap)
  }

  /** For every run without real requests, however long: every warm hits, the breaker never opens and the entry never
      expires. */
  lemma {:induction false} WarmForever(
      s: Settings, config: ProviderConfig, k: Kept, ticks: seq<Tick>, gap: real, latency: real)
    requires Sustainable(s, config, k.entry.lease, gap, latency) && InTime(config, k, gap, latency)
    requires Paced(s, config, k, ticks, gap, latency)
    ensures StaysWarm(s, config, k, ticks, gap)
    decreases |ticks|
  {
    if ticks != [] {
      TickStaysInTime(s, config, k, ticks[0], gap, latency);
      WarmForever(s, config, AfterTick(s, config, k, ticks[0]), ticks[1..], gap, latency);
    }
  }

  /** The guarantee starts from any touch the provider saw within the latency: a watched lease, just touched. */
  lemma JustTouchedIsInTime(s: Settings, config: ProviderConfig, k: Kept, gap: real, latency: real)
    requires Sustainable(s, config, k.entry.lease, gap, latency) && Watched(k.entry)
    requires k.entry.lease.lastCacheTouchAt == Some(k.idleSince)
    requires FingerprintOf(k) in k.cache && k.idleSince - latency + config.ttl <= k.cache[FingerprintOf(k)]
    requires Stale(k.entry) ==> 2.0 * gap + 2.0 * latency < config.ttl
    ensures InTime(config, k, gap, latency)
  {
  }
}
