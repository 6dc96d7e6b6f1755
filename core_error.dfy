/**
  The crate-level error enum of the `core` layer, its constructor helpers
  and `is_retryable`. Foreign errors (`ClientError`, `std::io::Error`,
  `serde_json::Error`) are kept as their display text.
*/
module CoreErrors {
  import opened Base

  datatype Error =
    | Rpc(cause: string)
    | Config(message: string)
    | Validation(message: string)
    | RateLimit(after: Duration)
    | Timeout(after: Duration)
    | AllEndpointsFailed(message: string)
    | InvalidUrl(url: string)
    | Io(cause: string)
    | Serialization(cause: string)

  /** `Error::config` */
  function ConfigError(message: string): Error {
    Config(message)
  }

  /** `Error::validation` */
  function ValidationError(message: string): Error {
    Validation(message)
  }

  /** `Error::rate_limit` */
  function RateLimitError(after: Duration): Error {
    RateLimit(after)
  }

  /** `Error::timeout` */
  function TimeoutError(after: Duration): Error {
    Timeout(after)
  }

  /** `Error::all_endpoints_failed` */
  function AllEndpointsFailedError(message: string): Error {
    AllEndpointsFailed(message)
  }

  /** `Error::invalid_url` */
  function InvalidUrlError(url: string): Error {
    InvalidUrl(url)
  }

  /** `is_retryable`: a failed RPC call, a timeout or a rate limit. */
  predicate IsRetryable(e: Error) {
    e.Rpc? || e.Timeout? || e.RateLimit?
  }

  /** Each helper builds its own variant around its argument, and only the timing ones are retryable. */
  lemma ConstructorsBuildTheirVariant(s: string, d: Duration)
    ensures ConfigError(s).Config? && ConfigError(s).message == s && !IsRetryable(ConfigError(s))
    ensures ValidationError(s).Validation? && ValidationError(s).message == s && !IsRetryable(ValidationError(s))
    ensures RateLimitError(d).RateLimit? && RateLimitError(d).after == d && IsRetryable(RateLimitError(d))
    ensures TimeoutError(d).Timeout? && TimeoutError(d).after == d && IsRetryable(TimeoutError(d))
    ensures AllEndpointsFailedError(s).AllEndpointsFailed? && AllEndpointsFailedError(s).message == s
         && !IsRetryable(AllEndpointsFailedError(s))
    ensures InvalidUrlError(s).InvalidUrl? && InvalidUrlError(s).url == s && !IsRetryable(InvalidUrlError(s))
  {
  }

  /** The six variants besides the three retryable ones are never retried. */
  lemma RetryableKinds(e: Error)
    ensures e.Config? || e.Validation? || e.AllEndpointsFailed? || e.InvalidUrl? || e.Io? || e.Serialization?
         ==> !IsRetryable(e)
  {
  }
}
