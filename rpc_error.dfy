/**
  The RPC layer's error enum (`RpcError`), its classification predicates,
  `with_context`, its display text and the `From` conversions.

  Errors of the foreign crates are kept only as the text they display:
  `solana_client`'s `ClientError`, `std::io::Error` and `reqwest::Error`
  (the last also with its two classification flags).
*/
module RpcErrors {
  import opened Base

  /** A `solana_client::client_error::ClientError`, known by its display text. */
  datatype ClientError = ClientError(text: string)

  /** A `std::io::Error`, known by its display text. */
  datatype IoError = IoError(text: string)

  /** A `reqwest::Error`: its display text and what `is_timeout()` / `is_connect()` say. */
  datatype HttpError = HttpError(text: string, timedOut: bool, connectFailed: bool)

  datatype RpcError =
    | InvalidConfig(message: string)
    | NoEnabledEndpoints
    | InvalidEndpoint(index: nat)
    | RequestFailed(cause: ClientError)
    | RateLimitExceeded
    | Timeout
    | RetryLimitExceeded
    | HealthCheckFailed
    | Internal(message: string)
    | ConnectionError(message: string)
    | CircuitBreakerOpen(message: string)
    | AllEndpointsFailed(message: string)

  /** `is_retryable`: the transient kinds the retry loop tries again. */
  predicate IsRetryable(e: RpcError) {
    e.RequestFailed? || e.RateLimitExceeded? || e.Timeout? || e.ConnectionError?
  }

  /** `is_circuit_breaker` */
  predicate IsCircuitBreaker(e: RpcError) {
    e.CircuitBreakerOpen?
  }

  /** `is_timeout` */
  predicate IsTimeout(e: RpcError) {
    e.Timeout?
  }

  /** `is_rate_limit` */
  predicate IsRateLimit(e: RpcError) {
    e.RateLimitExceeded?
  }

  /** `is_connection_error` */
  predicate IsConnectionError(e: RpcError) {
    e.ConnectionError?
  }

  /** `with_context`: prefixes the text of a failed request or an internal error. */
  function WithContext(e: RpcError, context: string): (r: RpcError)
    ensures e.RequestFailed? ==> r == Internal(context + ": " + e.cause.text)
    ensures e.Internal? ==> r == Internal(context + ": " + e.message)
    ensures !e.RequestFailed? && !e.Internal? ==> r == e
  {
    match e
    case RequestFailed(c) => Internal(context + ": " + c.text)
    case Internal(m) => Internal(context + ": " + m)
    case _ => e
  }

  /** The `#[error(...)]` display text of each variant. */
  function Display(e: RpcError): (text: string) {
    match e
    case InvalidConfig(m) => "Invalid configuration: " + m
    case NoEnabledEndpoints => "No enabled endpoints found"
    case InvalidEndpoint(i) => "Invalid endpoint index: " + NatToString(i)
    case RequestFailed(c) => "Request failed: " + c.text
    case RateLimitExceeded => "Rate limit exceeded"
    case Timeout => "Request timeout"
    case RetryLimitExceeded => "Retry limit exceeded"
    case HealthCheckFailed => "Health check failed"
    case Internal(m) => "Internal error: " + m
    case ConnectionError(m) => "Connection error: " + m
    case CircuitBreakerOpen(m) => "Circuit breaker open: " + m
    case AllEndpointsFailed(m) => "All endpoints failed: " + m
  }

  /** `From<std::io::Error>` */
  function FromIoError(err: IoError): (r: RpcError)
    ensures IsConnectionError(r) && IsRetryable(r)
    ensures r.message == err.text
  {
    ConnectionError(err.text)
  }

  /** `From<reqwest::Error>`: a timeout first, then a connect failure, else a failed request. */
  function FromHttpError(err: HttpError): (r: RpcError)
    ensures err.timedOut <==> r.Timeout?
    ensures !err.timedOut && err.connectFailed <==> r.ConnectionError?
    ensures r.ConnectionError? ==> r.message == err.text
    ensures !err.timedOut && !err.connectFailed <==> r.RequestFailed?
    ensures r.RequestFailed? ==> r.cause == ClientError(err.text)
  {
    if err.timedOut then Timeout
    else if err.connectFailed then ConnectionError(err.text)
    else RequestFailed(ClientError(err.text))
  }

  /** Each narrow classifier names one variant, and each of those variants is retryable. */
  lemma ClassifierKinds(e: RpcError)
    ensures IsTimeout(e) <==> e == Timeout
    ensures IsRateLimit(e) <==> e == RateLimitExceeded
    ensures IsConnectionError(e) <==> e.ConnectionError?
    ensures IsTimeout(e) || IsRateLimit(e) || IsConnectionError(e) ==> IsRetryable(e)
  {
  }

  /** The eight variants besides the four retryable ones are never retried. */
  lemma RetryableKinds(e: RpcError)
    ensures e.InvalidConfig? || e.NoEnabledEndpoints? || e.InvalidEndpoint? || e.RetryLimitExceeded?
         || e.HealthCheckFailed? || e.Internal? || e.CircuitBreakerOpen? || e.AllEndpointsFailed?
         ==> !IsRetryable(e)
  {
  }

  /** An open circuit breaker is the only circuit-breaker error, and it is not retried. */
  lemma CircuitBreakerNotRetryable(e: RpcError)
    ensures IsCircuitBreaker(e) <==> e.CircuitBreakerOpen?
    ensures IsCircuitBreaker(e) ==> !IsRetryable(e)
  {
  }

  /** Every error that converts from the network is retryable. */
  lemma ConversionsRetryable(io: IoError, http: HttpError)
    ensures IsRetryable(FromIoError(io))
    ensures IsRetryable(FromHttpError(http))
  {
  }

  /**
    `with_context` keeps an error's retryability except that it turns a
    failed request, which is retryable, into an internal error, which is not.
  */
  lemma WithContextRetryability(e: RpcError, context: string)
    ensures IsRetryable(WithContext(e, context)) <==> IsRetryable(e) && !e.RequestFailed?
    ensures !IsRetryable(WithContext(e, context)) ==> !IsRetryable(e) || e.RequestFailed?
  {
  }

  /** Wrapping twice nests the contexts, outermost first. */
  lemma WithContextNests(e: RpcError, inner: string, outer: string)
    requires e.RequestFailed? || e.Internal?
    ensures WithContext(WithContext(e, inner), outer).Internal?
    ensures WithContext(WithContext(e, inner), outer).message
         == outer + ": " + WithContext(e, inner).message
  {
  }

  /** Display texts of the configuration and endpoint-index errors. */
  lemma DisplayExamples()
    ensures Display(InvalidConfig("test config")) == "Invalid configuration: test config"
    ensures Display(NoEnabledEndpoints) == "No enabled endpoints found"
    ensures Display(InvalidEndpoint(1)) == "Invalid endpoint index: 1"
  {
  }

  /** Distinct endpoint indices display distinctly. */
  lemma DisplayInvalidEndpointInjective(i: nat, j: nat)
    requires Display(InvalidEndpoint(i)) == Display(InvalidEndpoint(j))
    ensures i == j
  {
    var p := "Invalid endpoint index: ";
    assert NatToString(i) == (p + NatToString(i))[|p|..];
    assert NatToString(j) == (p + NatToString(j))[|p|..];
    NatToStringInjective(i, j);
  }
}
