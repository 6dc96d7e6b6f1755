/**
  The RPC client's rate limiter: argument checks of its constructor and its
  accessors. The token bucket behind it belongs to the `governor` crate and
  is not part of this model; waiting for a permit is kept only as its result.
*/
module RateLimits {
  import opened Base
  import opened RpcErrors
  import opened RpcConfigs

  /** The configured limits; the bucket state itself is the foreign limiter's. */
  datatype RateLimiter = RateLimiter(maxRps: nat, burstSize: nat)

  const MaxRpsError := InvalidConfig("max_rps must be greater than 0")
  const BurstSizeError := InvalidConfig("burst_size must be greater than 0")

  /**
    `RateLimiter::new`: rejects a zero rate, then a zero burst, else keeps
    both values. The one-second quota period is never zero, so its own
    failure branch cannot be taken.
  */
  function New(config: RateLimitConfig): (r: Result<RateLimiter, RpcError>)
    ensures r.Ok? <==> RateLimitValid(config)
    ensures config.maxRps == 0 ==> r == Err(MaxRpsError)
    ensures config.maxRps != 0 && config.burstSize == 0 ==> r == Err(BurstSizeError)
    ensures r.Err? ==> r.error.InvalidConfig? && !IsRetryable(r.error)
  {
    if config.maxRps == 0 then Err(MaxRpsError)
    else if config.burstSize == 0 then Err(BurstSizeError)
    else Ok(RateLimiter(config.maxRps, config.burstSize))
  }

  /** `max_rps()` */
  function MaxRps(l: RateLimiter): nat {
    l.maxRps
  }

  /** `burst_size()` */
  function BurstSize(l: RateLimiter): nat {
    l.burstSize
  }

  /** `wait_for_permit`: once the foreign limiter lets the caller through, it reports success. */
  function WaitForPermit(l: RateLimiter): (r: Result<(), RpcError>)
    ensures r == Ok(())
  {
    Ok(())
  }

  /** A limiter built from a configuration reports that configuration's numbers. */
  lemma NewKeepsLimits(config: RateLimitConfig)
    requires RateLimitValid(config)
    ensures New(config).Ok?
    ensures MaxRps(New(config).value) == config.maxRps
    ensures BurstSize(New(config).value) == config.burstSize
  {
  }

  /** When both numbers are zero, the rate error is the one reported. */
  lemma RateCheckedBeforeBurst(config: RateLimitConfig)
    requires config.maxRps == 0 && config.burstSize == 0
    ensures New(config) == Err(MaxRpsError)
  {
  }

  /** The default rate-limit settings build a limiter of 100 requests per second, burst 10. */
  lemma DefaultLimiter()
    ensures New(Default().rateLimit) == Ok(RateLimiter(100, 10))
  {
  }
}
