/**
  The error enum of the top-level `error` module (`RpcClientError`) and its
  `is_retryable`. Foreign errors are kept as their display text.
*/
module ClientErrors {
  import opened Base

  datatype RpcClientError =
    | RequestError(cause: string)
    | SolanaError(cause: string)
    | RateLimitExceeded(after: Duration)
    | AllEndpointsFailed(message: string)
    | ConfigError(message: string)
    | Timeout(after: Duration)
    | SerializationError(cause: string)
    | CacheError(message: string)
    | HealthCheckError(message: string)
    | RequestCloneFailed(message: string)
    | UnhealthyEndpoint(message: string)

  /** `is_retryable`: an HTTP request error, a timeout or a rate limit. */
  predicate IsRetryable(e: RpcClientError) {
    e.RequestError? || e.Timeout? || e.RateLimitExceeded?
  }

  /** The variants besides the three retryable ones, a wrapped Solana client error among them, are never retried. */
  lemma RetryableKinds(e: RpcClientError)
    ensures e.SolanaError? ==> !IsRetryable(e)
    ensures e.AllEndpointsFailed? || e.UnhealthyEndpoint? || e.CacheError? || e.HealthCheckError?
         || e.ConfigError? || e.SerializationError? || e.RequestCloneFailed?
         ==> !IsRetryable(e)
  {
  }
}
