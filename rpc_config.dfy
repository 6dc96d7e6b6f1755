/**
  Configuration of the RPC client (`RpcConfig` and its parts), the
  validity rules its `#[validate(...)]` attributes declare, the accessors of
  the `Config` trait and the default configuration.
*/
module RpcConfigs {
  import opened Base

  datatype EndpointConfig = EndpointConfig(url: string, weight: nat, enabled: bool)

  /** `core::traits::RetryConfig`, the retry settings the RPC client reads. */
  datatype RetryConfig = RetryConfig(maxRetries: nat, retryDelayMs: nat)

  datatype RateLimitConfig = RateLimitConfig(maxRps: nat, burstSize: nat)

  datatype RpcConfig = RpcConfig(
    endpoints: seq<EndpointConfig>,
    maxConcurrentRequests: nat,
    requestTimeoutMs: nat,
    retry: RetryConfig,
    rateLimit: RateLimitConfig)

  /**
    `RpcConfig::validate`: at least one endpoint and at least one concurrent
    request. The nested rate-limit settings are not marked `nested`, so they
    are not part of this check.
  */
  predicate Valid(c: RpcConfig) {
    |c.endpoints| >= 1 && c.maxConcurrentRequests >= 1
  }

  /** `RateLimitConfig::validate` */
  predicate RateLimitValid(r: RateLimitConfig) {
    r.maxRps >= 1 && r.burstSize >= 1
  }

  /** `Config::max_concurrent_requests` */
  function MaxConcurrentRequests(c: RpcConfig): nat {
    c.maxConcurrentRequests
  }

  /** `Config::timeout`: the request timeout as a `Duration`. */
  function TimeoutOf(c: RpcConfig): (d: Duration)
    ensures AsMillis(d) == c.requestTimeoutMs
  {
    FromMillis(c.requestTimeoutMs)
  }

  /** `Config::retry_config` */
  function RetryConfigOf(c: RpcConfig): RetryConfig {
    c.retry
  }

  /** `RpcConfig::default` */
  function Default(): (c: RpcConfig)
    ensures |c.endpoints| == 1
    ensures c.endpoints[0] == EndpointConfig("http://localhost:8899", 1, true)
    ensures c.maxConcurrentRequests == 10 && c.requestTimeoutMs == 5000
    ensures c.retry == RetryConfig(3, 100)
    ensures c.rateLimit == RateLimitConfig(100, 10)
  {
    RpcConfig(
      [EndpointConfig("http://localhost:8899", 1, true)],
      10,
      5000,
      RetryConfig(3, 100),
      RateLimitConfig(100, 10))
  }

  /** The default configuration and its rate-limit settings pass validation. */
  lemma DefaultValid()
    ensures Valid(Default()) && RateLimitValid(Default().rateLimit)
    ensures MaxConcurrentRequests(Default()) == 10
    ensures AsMillis(TimeoutOf(Default())) == 5000
    ensures RetryConfigOf(Default()).maxRetries == 3
  {
  }

  /** Zero concurrent requests is rejected, whatever else the configuration holds. */
  lemma ZeroConcurrencyInvalid(c: RpcConfig)
    requires c.maxConcurrentRequests == 0
    ensures !Valid(c)
  {
  }

  /** No endpoint list is valid when empty. */
  lemma EmptyEndpointsInvalid(c: RpcConfig)
    requires c.endpoints == []
    ensures !Valid(c)
  {
  }

  /** A rate limit needs a positive rate and a positive burst. */
  lemma RateLimitValidity(r: RateLimitConfig)
    ensures RateLimitValid(r) <==> r.maxRps != 0 && r.burstSize != 0
  {
  }
}
