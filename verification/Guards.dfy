// One symbol's guard as the program keeps it: a latch and the circular flicker buffer it owns.
module Guards {
  import opened OrderTypes
  import opened Arith
  import opened RecentLog
  import opened TimeBuffer
  import opened GuardSpec

  class GuardState {
    var lastUpdateTs: nat
    var blockedUntil: nat
    var blockReason: Verdict
    const flickerBuffer: TimeRingBuffer<()>

    /** The state and the buffer it owns are sized for `cfg`. */
    ghost predicate Valid(cfg: GuardConfig)
      reads this, flickerBuffer, flickerBuffer.buffer
      ensures Valid(cfg) ==> flickerBuffer.Valid()
    {
      && flickerBuffer.Valid()
      && flickerBuffer.capacity == 2 * cfg.maxFlickerCount + 1
      && flickerBuffer.windowMicros == cfg.flickerWindow
    }

    ghost function Model(): Guard
      requires flickerBuffer.Valid()
      reads this, flickerBuffer, flickerBuffer.buffer
    {
      Guard(lastUpdateTs, blockedUntil, blockReason, flickerBuffer.Contents())
    }

    constructor (cfg: GuardConfig)
      ensures Valid(cfg) && fresh(flickerBuffer) && fresh(flickerBuffer.buffer)
      ensures Model() == NEW_GUARD
    {
      lastUpdateTs, blockedUntil, blockReason := 0, 0, None;
      flickerBuffer := new TimeRingBuffer<()>(cfg.maxFlickerCount * 2, cfg.flickerWindow);
    }

    method TrackEvent(cfg: GuardConfig, timestamp: nat) returns (verdict: Verdict)
      requires Valid(cfg)
      modifies this, flickerBuffer, flickerBuffer.buffer
      ensures Valid(cfg)
      ensures (Model(), verdict) == Track(old(Model()), cfg, timestamp)
    {
      hide DropOld, TakeLast;
      lastUpdateTs := timestamp;
      if timestamp < blockedUntil && blockReason.Some? {
        return blockReason;
      }
      flickerBuffer.Push(timestamp, ());
      flickerBuffer.PruneExpired(timestamp);
      if flickerBuffer.Len() > cfg.maxFlickerCount {
        verdict := Reject(cfg, timestamp, GuardFlicker);
      } else {
        verdict := None;
      }
    }

    method CheckExecution(cfg: GuardConfig, timestamp: nat, quote: Quote) returns (verdict: Verdict)
      requires Valid(cfg)
      modifies this
      ensures Valid(cfg)
      ensures (Model(), verdict) == Check(old(Model()), cfg, timestamp, quote)
    {
      if timestamp < blockedUntil && blockReason.Some? {
        return blockReason;
      }
      if SaturatingSub(timestamp, quote.dataTs) > cfg.maxStaleness {
        verdict := Reject(cfg, timestamp, GuardStale);
        return;
      }
      var spread := quote.ask - quote.bid;
      if spread > cfg.maxSpread || spread <= 0.0 {
        verdict := Reject(cfg, timestamp, GuardSpread);
        return;
      }
      var totalLiquidity := quote.bidSize + quote.askSize;
      if totalLiquidity < cfg.minLiquidity {
        verdict := Reject(cfg, timestamp, GuardL2Vacuum);
        return;
      }
      if totalLiquidity > 0 {
        var imbalance := Magnitude(quote.bidSize as real - quote.askSize as real) / totalLiquidity as real;
        if imbalance > cfg.maxImbalanceRatio {
          verdict := Reject(cfg, timestamp, GuardImbalance);
          return;
        }
      }
      var mid := (quote.bid + quote.ask) / 2.0;
      if Magnitude(mid - quote.lastTrade) > cfg.slippageTolerance {
        verdict := Reject(cfg, timestamp, GuardSlippage);
        return;
      }
      lastUpdateTs := timestamp;
      blockReason := None;
      verdict := None;
    }

    method Reject(cfg: GuardConfig, timestamp: nat, reason: RejectReason) returns (verdict: Verdict)
      requires Valid(cfg)
      modifies this
      ensures Valid(cfg)
      ensures (Model(), verdict) == Trip(old(Model()), cfg, timestamp, reason)
    {
      blockedUntil := timestamp + cfg.ttl;
      blockReason := Some(reason);
      verdict := Some(reason);
    }
  }
}
