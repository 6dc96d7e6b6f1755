# Solana analytics RPC core, modelled in Dafny

This project models the RPC layer of the `solana_analytics` crate and proves
properties of the model. The layer covers:

- the `SolanaRpcClient`, which picks the first enabled endpoint, throttles
  through a rate limiter, and sends every request through a retry loop with
  exponential backoff;
- the two health monitors that keep per-endpoint statistics;
- the error enums and their retry classification;
- the two configuration families and their validation rules;
- the paginated transaction fetcher, which keeps a signature checkpoint.

Each core Rust file has its own module:

| Dafny file | module | Rust file |
|---|---|---|
| base.dfy | `Base` | `Option`, `Result`, `Duration`, the `{}` rendering of integers |
| rpc_error.dfy | `RpcErrors` | src/rpc/error.rs |
| rpc_config.dfy | `RpcConfigs` | src/rpc/config.rs |
| rate_limit.dfy | `RateLimits` | src/rpc/rate_limit.rs |
| rpc_health.dfy | `RpcHealth` | src/rpc/health.rs |
| client.dfy | `RpcClient` | src/rpc/client.rs |
| core_error.dfy | `CoreErrors` | src/core/error.rs |
| core_config.dfy | `CoreConfig` | src/core/config.rs |
| core_health.dfy | `CoreHealth` | src/core/health.rs |
| client_error.dfy | `ClientErrors` | src/error/mod.rs |
| transaction_fetcher.dfy | `TransactionFetcher` | src/fetcher/transaction_fetcher.rs |

The model takes the form of the source:

- **State changed in place becomes a Dafny class.** The RPC health monitor
  holds a `seq` of statistics and a cursor. The core health records are
  objects held by the core monitor. The client holds its active URL and two
  ghost logs: the rate-limit permits it has taken and the backoffs it has
  slept. The fetcher holds its checkpoint.
- **Loops stay loops,** proved against specification functions:
  - the `while` loop of `with_retry`, against the tail-recursive `RetryFrom`;
  - the search loop of `check_health`, against `HealthyChoice`;
  - the `iter_mut().find` of the core monitor, against `FirstMatch`;
  - the collection loop of `fetch_next_batch`, against `Successful`.
- **Pure code becomes datatypes, functions and lemmas.** This covers the
  error enums, the validation rules, the constructors and the defaults.

Outside inputs become parameters:

- The clock is an integer `now` in milliseconds. Inside `with_retry`, time
  advances only by the loop's own sleeps.
- The network is an oracle. The operation given to `with_retry` is a function
  from the invocation number to its outcome. The fetcher's client is a pair of
  functions, one for the signature query and one for the transaction query.
- The float `health_score` used by `get_healthiest_endpoint` becomes an integer
  score function supplied by the caller.

Where the tests and the code disagree, the model follows the code:

- `test_invalid_rate_limit` (src/rpc/client.rs:193-198) expects
  `SolanaRpcClient::new` to fail when `max_concurrent_requests` is 0.
  `new` never reads that field, so the model accepts such a configuration.
- The health tests compare `HealthStatus` with enum variants that do not
  exist. `HealthStatus` is a struct, and the model uses its fields.
- `client.rs` imports `RpcRateLimiter`, but `rate_limit.rs` declares
  `RateLimiter`. The model treats the two names as one type.
- `lib.rs` does not declare the `fetcher` module. The model includes it
  anyway.

## Model

| member | source | states |
|---|---|---|
| Base.NatToStringRoundTrip | src/rpc/client.rs:118 | the decimal text used in the exhaustion message reads back to the number it renders |
| Base.NatToStringInjective | src/rpc/error.rs:12-13 | distinct numbers render as distinct decimal texts |
| Base.FromMillis | src/rpc/config.rs:58-60 | `Duration::from_millis(ms)` is exactly `ms` whole milliseconds |
| RpcErrors.WithContext | src/rpc/error.rs:58-64 | a failed request or an internal error becomes `Internal("<context>: <text>")`; every other variant is returned unchanged |
| RpcErrors.FromIoError | src/rpc/error.rs:79-83 | an I/O error becomes a retryable connection error carrying its text |
| RpcErrors.FromHttpError | src/rpc/error.rs:85-95 | a timed-out HTTP error becomes `Timeout`; otherwise a connect failure becomes `ConnectionError`; anything else becomes `RequestFailed`; each direction holds as an iff |
| RpcErrors.RetryableKinds | src/rpc/error.rs:44-52 | the eight variants other than `RequestFailed`, `RateLimitExceeded`, `Timeout` and `ConnectionError` are never retried |
| RpcErrors.ClassifierKinds | src/rpc/error.rs:66-76 | `is_timeout`, `is_rate_limit` and `is_connection_error` each name exactly one variant; each of those variants is retryable |
| RpcErrors.CircuitBreakerNotRetryable | src/rpc/error.rs:54-56 | `is_circuit_breaker` holds exactly for `CircuitBreakerOpen`, which is never retryable |
| RpcErrors.ConversionsRetryable | src/rpc/error.rs:79-95 | every error converted from I/O or HTTP is retryable |
| RpcErrors.WithContextRetryability | src/rpc/error.rs:44-64 | `with_context` keeps retryability, except that a retryable failed request turns into an internal error, which is not retryable |
| RpcErrors.WithContextNests | src/rpc/error.rs:58-64 | wrapping twice puts the outer context first, then the inner one |
| RpcErrors.DisplayExamples | src/rpc/error.rs:6-13 | the display texts of `InvalidConfig`, `NoEnabledEndpoints` and `InvalidEndpoint(1)` |
| RpcErrors.DisplayInvalidEndpointInjective | src/rpc/error.rs:12-13 | two endpoint-index errors with the same display text have the same index |
| RpcConfigs.TimeoutOf | src/rpc/config.rs:58-60 | the timeout duration measures `request_timeout_ms` milliseconds |
| RpcConfigs.Default | src/rpc/config.rs:67-87 | one enabled endpoint `http://localhost:8899` of weight 1; 10 concurrent requests; a 5000 ms timeout; 3 retries 100 ms apart; 100 rps with burst 10 |
| RpcConfigs.DefaultValid | src/rpc/config.rs:22-51 | the default configuration and its rate-limit settings pass validation, and the accessors report 10, 5000 ms and 3 |
| RpcConfigs.ZeroConcurrencyInvalid | src/rpc/config.rs:27-29 | a configuration with zero concurrent requests does not validate |
| RpcConfigs.EmptyEndpointsInvalid | src/rpc/config.rs:23-25 | an empty endpoint list does not validate |
| RpcConfigs.RateLimitValidity | src/rpc/config.rs:43-51 | a rate limit validates iff both its rate and its burst are non-zero |
| RateLimits.New | src/rpc/rate_limit.rs:23-42 | construction succeeds iff both numbers are non-zero. A zero rate gives the `max_rps` error; otherwise a zero burst gives the `burst_size` error. Both errors are non-retryable `InvalidConfig` |
| RateLimits.WaitForPermit | src/rpc/rate_limit.rs:45-48 | waiting for a permit always ends in `Ok(())` |
| RateLimits.NewKeepsLimits | src/rpc/rate_limit.rs:37-58 | a limiter built from valid settings reports those settings through `max_rps` and `burst_size` |
| RateLimits.RateCheckedBeforeBurst | src/rpc/rate_limit.rs:24-28 | when both numbers are zero, the rate error is the one reported |
| RateLimits.DefaultLimiter | src/rpc/rate_limit.rs:23-42 | the default settings build a limiter of 100 rps with burst 10 |
| RpcHealth.FirstRecent | src/rpc/health.rs:85-97 | the lowest index from `from` whose endpoint succeeded less than 30 s ago; none iff no endpoint did |
| RpcHealth.NextIndex | src/rpc/health.rs:152 | the round-robin successor always lies inside the endpoint list |
| RpcHealth.HealthMonitor.constructor | src/rpc/health.rs:55-62 | one zeroed statistics record per configured endpoint; cursor 0 |
| RpcHealth.HealthMonitor.Stats | src/rpc/health.rs:107-109 | there is one record per configured endpoint |
| RpcHealth.HealthMonitor.CurrentEndpoint | src/rpc/health.rs:145-147 | the cursor names a configured endpoint |
| RpcHealth.HealthMonitor.CheckHealth | src/rpc/health.rs:65-104 | reports healthy iff some endpoint succeeded less than 30 s ago. A recently healthy current endpoint is kept; otherwise the cursor moves to the first such endpoint; if there is none, the cursor stays and the status is "Unhealthy" |
| RpcHealth.HealthMonitor.RecordSuccess | src/rpc/health.rs:112-128 | an index past the end gives `InvalidEndpoint(idx)` and nothing changes. Otherwise only record `idx` changes: one more success, `bytes` more transferred, and `last_success` set to now |
| RpcHealth.HealthMonitor.RecordFailure | src/rpc/health.rs:131-142 | an index past the end gives `InvalidEndpoint(idx)` and nothing changes. Otherwise only record `idx` changes: one more failure and `last_failure` set to now; the success counters stay |
| RpcHealth.HealthMonitor.SwitchEndpoint | src/rpc/health.rs:150-154 | the cursor moves to `(current + 1) mod n` and the result is `Ok` |
| RpcHealth.StartsUnhealthy | src/rpc/health.rs:55-62 | a freshly zeroed monitor finds no healthy endpoint |
| RpcHealth.SuccessMakesRecent | src/rpc/health.rs:118-121 | a success recorded less than 30 s ago makes the endpoint healthy |
| RpcHealth.FailureKeepsRecency | src/rpc/health.rs:137-139 | a failure never changes whether an endpoint counts as healthy |
| RpcHealth.HealthyChoiceSound | src/rpc/health.rs:73-103 | a chosen endpoint is always healthy; a healthy current endpoint is kept; nothing is chosen iff no endpoint is healthy |
| RpcClient.Setup | src/rpc/client.rs:40-52 | on success an enabled endpoint of the configuration; on failure `NoEnabledEndpoints` or the limiter's non-retryable `InvalidConfig` |
| RpcClient.CurrentEndpointOf | src/rpc/client.rs:165-168 | the URL of an enabled endpoint when there is one, and `""` when there is none; `SolanaRpcClient.CurrentEndpoint` returns it for the client's configuration |
| RpcClient.FirstEnabled | src/rpc/client.rs:50-52 | the lowest enabled index from `from`; none iff no endpoint there is enabled |
| RpcClient.New | src/rpc/client.rs:40-67 | fails iff the rate limiter cannot be built or no endpoint is enabled, with that error. On success: a fresh client on the first enabled endpoint, cursor 0, zeroed statistics, no permits or sleeps yet |
| RpcClient.SolanaRpcClient.WithRetry | src/rpc/client.rs:79-119 | result, permits, sleeps and health records all equal those of the specification run `Retry`. The current endpoint's record receives the run's records and every other record is unchanged |
| RpcClient.SolanaRpcClient.GetBlock | src/rpc/client.rs:121-128 | the retry run over the block query with wrapped failures: at most one permit and no sleep; the first answer's value, or `Internal("get_block failed: Failed to get block at slot <slot>: <cause>")`; the cursor stays and only the current endpoint's record receives the run's records |
| RpcClient.SolanaRpcClient.GetSignatureStatus | src/rpc/client.rs:130-140 | the same for the status query, with `"get_signature_status failed: Failed to get status for signature <sig>: <cause>"` |
| RpcClient.SolanaRpcClient.UpdateClient | src/rpc/client.rs:142-153 | an index past the end gives `InvalidEndpoint(idx)` and the connection is unchanged; otherwise the connection moves to that endpoint's URL |
| RpcClient.NewFailsIffNoneEnabled | src/rpc/client.rs:47-52 | with valid rate-limit settings, construction fails with `NoEnabledEndpoints` iff no endpoint is enabled |
| RpcClient.RateLimitCheckedFirst | src/rpc/client.rs:44-52 | bad rate-limit settings are reported as the limiter's own `InvalidConfig` error, before the endpoints are looked at |
| RpcClient.SetupPicksFirstEnabled | src/rpc/client.rs:50-65 | the client connects to the first enabled endpoint, and `current_endpoint` names that same URL |
| RpcClient.FirstEnabledUnique | src/rpc/client.rs:50-52 | an enabled endpoint with no enabled endpoint before it is the one found |
| RpcClient.NoneEnabledEmptyUrl | src/rpc/client.rs:165-168 | with no enabled endpoint, `current_endpoint` is the empty string |
| RpcClient.DefaultBuilds | src/rpc/client.rs:40-67 | the default configuration builds a client on `http://localhost:8899` |
| RpcClient.RetryFromShape | src/rpc/client.rs:88-116 | from any loop state: invocations stay within the budget, one record per invocation, every record but the last is a failure, success iff the last record is one, and the `k`-th sleep is `delay * 2^k` |
| RpcClient.RetryBounded | src/rpc/client.rs:83-119 | a whole run makes at most `max_retries` invocations and at most one success, which is the run's result; the `k`-th sleep (from 1) lasts `retry_delay_ms * 2^k` |
| RpcClient.SuccessesOfShape | src/rpc/client.rs:92-103 | a record list whose records are all failures except perhaps the last holds at most one success |
| RpcClient.AllFailuresNoSuccess | src/rpc/client.rs:100-103 | a record list of failures only holds no success |
| RpcClient.ApplyRecords | src/rpc/client.rs:93-104 | the records of a run leave the byte count alone and add one request, success or failure, per record |
| RpcClient.ApplyRecordsCounts | src/rpc/client.rs:93-104 | one more success per success record and one more failure per failure record, with the byte count untouched |
| RpcClient.RetryHealthEffect | src/rpc/client.rs:93-104 | one run adds one success to the current endpoint if it succeeded, and one failure for every other invocation |
| RpcClient.Successes | src/rpc/client.rs:93-98 | a record list holds no more successes than records |
| RpcClient.BackoffDoubles | src/rpc/client.rs:108-113 | the backoff factor starts at the delay and doubles with each retryable failure |
| RpcClient.RetryZeroBudget | src/rpc/client.rs:118 | with zero retries the operation is never invoked and the result is `Internal("<op> failed after 0 attempts")` |
| RpcClient.RetryFromStopsAt | src/rpc/client.rs:92-106 | from any loop state, the first invocation that does not fail retryably ends the run with its value or its wrapped error |
| RpcClient.RetryStopsAt | src/rpc/client.rs:88-106 | a success or a non-retryable error at invocation `k` ends the run after `k + 1` invocations and `k` sleeps. A success is returned as is; the error is returned through `with_context("<op> failed")` |
| RpcClient.RetryFromExhausts | src/rpc/client.rs:100-118 | from any loop state, when only retryable failures remain, the budget runs out and the last error is returned |
| RpcClient.RetryExhausted | src/rpc/client.rs:100-118 | when every invocation fails retryably, the whole budget is used and every attempt, the last included, is followed by a sleep. The last error is returned and no success is recorded |
| RpcClient.WrappedFailureSingleAttempt | src/rpc/client.rs:121-140 | the request closures make every failure an internal error, which is not retryable, so a failure costs one attempt and no sleep. The returned text is `"<op> failed: <context>: <cause>"` |
| CoreErrors.ConstructorsBuildTheirVariant | src/core/error.rs:47-74 | each helper builds its own variant around its argument; only the rate-limit and timeout errors are retryable |
| CoreErrors.RetryableKinds | src/core/error.rs:77-83 | the six variants other than `Rpc`, `Timeout` and `RateLimit` are never retried |
| ClientErrors.RetryableKinds | src/error/mod.rs:44-50 | the variants other than `RequestError`, `Timeout` and `RateLimitExceeded`, a wrapped Solana error among them, are never retried |
| CoreConfig.ValidateUrl | src/core/config.rs:26-36 | passes iff the parsed scheme is `http` or `https`; an unparsable URL gives `invalid_url`, any other scheme `invalid_scheme` |
| CoreConfig.ParseScheme | src/core/config.rs:27 | a scheme found is non-empty, starts with a lower-case letter and holds no upper-case letter |
| CoreConfig.Clean | src/core/config.rs:27 | the cleaned input is no longer than the URL, holds no tab or newline, and neither starts nor ends with a C0 control or a space |
| CoreConfig.UrlRule | src/core/config.rs:26-36 | a URL passes iff, after trimming C0 controls and spaces and removing tabs and newlines, it starts, ignoring letter case, with `http:` or `https:` |
| CoreConfig.SchemeRule | src/core/config.rs:27-29 | a cleaned string has scheme `http` or `https` iff it starts, ignoring letter case, with `http:` or `https:` |
| CoreConfig.CleanIdempotent | src/core/config.rs:27 | cleaning twice is cleaning once, and the scheme of the cleaned URL is the scheme of the URL |
| CoreConfig.SurroundingSpaceIgnored | src/core/config.rs:26-36 | C0 controls and spaces before and after a URL change neither its scheme nor its verdict |
| CoreConfig.LeadingSpaceIgnored | src/core/config.rs:26-36 | leading C0 controls and spaces do not change the verdict |
| CoreConfig.TabInsideIgnored | src/core/config.rs:26-36 | a tab or newline inside a URL changes neither its scheme nor its verdict |
| CoreConfig.LeadingSpaceExample | src/core/config.rs:26-36 | ` https://api.example.com` passes |
| CoreConfig.CleanKeepsPlain | src/core/config.rs:27 | a URL with no control character and no space is scanned as it is |
| CoreConfig.PlainPrefixed | src/core/config.rs:27-29 | a URL with no control or space that starts with a lower-case scheme and `:` parses to that scheme |
| CoreConfig.NoColonNoScheme | src/core/config.rs:27-34 | a URL of scheme characters only, with no colon, does not parse |
| CoreConfig.SchemeRunOfPrefix | src/core/config.rs:27 | the scheme of a string of scheme characters ended by `:` is exactly that run of characters |
| CoreConfig.SchemeOfPrefixed | src/core/config.rs:27-29 | a letter-led run of scheme characters followed by `:` parses to that run, lower-cased, whatever follows |
| CoreConfig.MainnetUrlPasses | src/core/config.rs:176-192 | the default mainnet URL parses with scheme `https` and passes |
| CoreConfig.FtpExample | src/core/config.rs:26-36 | `ftp://example.com` fails with `invalid_scheme` |
| CoreConfig.NoSchemeExample | src/core/config.rs:26-36 | `invalid-url` fails with `invalid_url` |
| CoreConfig.NewEndpoint | src/core/config.rs:40-47 | the endpoint keeps its arguments and gets weight 1 |
| CoreConfig.NewConfig | src/core/config.rs:100-114 | the configuration keeps its arguments; pool 10, keep-alive 30 s, cache TTL 60 s, timeout 30 s |
| CoreConfig.RetryDefaults | src/core/config.rs:150-174 | the default retry settings are `(5, 100, 10000, 2.0)` and lie inside every range, while values outside a range fail |
| CoreConfig.DefaultValid | src/core/config.rs:176-192 | the default configuration and its endpoint validate, with 10 concurrent requests, 5 retries and pool 10 |
| CoreConfig.RejectedExamples | src/core/config.rs:7-96 | an `ftp` endpoint with 0 rps and timeout 0 fails; the default with 0 or 1001 concurrent requests fails; the default with 11 retries fails |
| CoreConfig.EndpointBounds | src/core/config.rs:8-24 | a valid endpoint has at least 1 rps, a timeout of 100 to 30000 ms, and an http(s) URL |
| CoreConfig.ValidityIgnoresEndpointContents | src/core/config.rs:53-55 | validation of a configuration depends only on the endpoint list being non-empty, not on its contents |
| CoreHealth.FirstMatch | src/core/health.rs:103 | the first record whose URL matches; none iff no record matches |
| CoreHealth.Healthiest | src/core/health.rs:115-122 | none iff no record may be retried. Otherwise a retryable record whose score no other retryable record beats, and no later retryable record ties with it |
| CoreHealth.EndpointHealth.constructor | src/core/health.rs:21-31 | healthy, zero counts, no last error or success |
| CoreHealth.EndpointHealth.RecordSuccess | src/core/health.rs:33-42 | one more success, the response time stored, `last_success` set to now, healthy; the other fields stay |
| CoreHealth.EndpointHealth.RecordError | src/core/health.rs:44-51 | one more error, the message stored, unhealthy; the other fields stay |
| CoreHealth.EndpointHealth.ShouldRetry | src/core/health.rs:78-81 | holds iff the record is healthy or has fewer than 3 errors |
| CoreHealth.HealthMonitor.Views | src/core/health.rs:124-126 | the stats snapshot holds each record's contents, in order |
| CoreHealth.HealthMonitor.constructor | src/core/health.rs:90-99 | one fresh, distinct, healthy record per URL, in the given order |
| CoreHealth.HealthMonitor.Find | src/core/health.rs:103 | the search lands on the first record with that URL, or on none |
| CoreHealth.HealthMonitor.RecordSuccess | src/core/health.rs:101-106 | only the first record with that URL records the success; an unknown URL changes nothing |
| CoreHealth.HealthMonitor.RecordError | src/core/health.rs:108-113 | only the first record with that URL records the error; an unknown URL changes nothing |
| CoreHealth.HealthMonitor.HealthiestEndpoint | src/core/health.rs:115-122 | none iff no record may be retried; otherwise the URL of a retryable record with the top score |
| CoreHealth.FreshRecord | src/core/health.rs:21-31 | a new record may be retried and has recorded nothing |
| CoreHealth.SuccessRestores | src/core/health.rs:33-37 | a success makes a record healthy and retryable and leaves its error count |
| CoreHealth.ErrorThresholdRule | src/core/health.rs:44-47 | an error leaves the success fields; the record stays retryable iff its new error count is below 3 |
| CoreHealth.ErrorsAccumulate | src/core/health.rs:44-47 | a run of errors adds its length to the error count, keeps the last message and leaves the record unhealthy |
| CoreHealth.ThreeErrorsStopRetries | src/core/health.rs:78-81 | three or more errors with no success between them stop retries, from any record |
| CoreHealth.FreshRecordTolerance | src/core/health.rs:78-81 | a new record survives two errors but not a third |
| CoreHealth.NothingRetryableNoChoice | src/core/health.rs:115-122 | when every record is unhealthy with 3 or more errors, there is no healthiest one |
| TransactionFetcher.NextBatch | src/fetcher/transaction_fetcher.rs:48-71 | a failed call is always an `Rpc` error and leaves the checkpoint |
| TransactionFetcher.DisplayTag | src/fetcher/transaction_fetcher.rs:17-27 | the first two characters of each error text name its variant |
| TransactionFetcher.DisplayInjective | src/fetcher/transaction_fetcher.rs:17-27 | two errors with the same text are the same error |
| TransactionFetcher.Successful | src/fetcher/transaction_fetcher.rs:61-70 | the batch is never longer than its page |
| TransactionFetcher.Fetcher.FetchNextBatch | src/fetcher/transaction_fetcher.rs:48-71 | the batch and the new checkpoint are those of `NextBatch` from the old checkpoint |
| TransactionFetcher.Fetcher.SetCheckpoint | src/fetcher/transaction_fetcher.rs:78-84 | `get_checkpoint` then returns the signature that was set |
| TransactionFetcher.Fetcher.Progress | src/fetcher/transaction_fetcher.rs:86-92 | `fetched` is 0, `done` is false, and `last_signature` is the checkpoint |
| TransactionFetcher.QueryUsesCheckpoint | src/fetcher/transaction_fetcher.rs:50-57 | the query uses the checkpoint and the batch size. A failed query becomes `Rpc(text)` and an empty page an empty batch; both leave the checkpoint |
| TransactionFetcher.CheckpointRule | src/fetcher/transaction_fetcher.rs:50-59 | the checkpoint moves to the last signature of a non-empty page and otherwise stays; the call fails iff the query failed |
| TransactionFetcher.BatchWithinPage | src/fetcher/transaction_fetcher.rs:61-70 | a successful query gives a batch no longer than its page |
| TransactionFetcher.SuccessfulAppend | src/fetcher/transaction_fetcher.rs:61-70 | collection keeps page order: collecting over two parts is collecting over each part, concatenated |
| TransactionFetcher.AllFetched | src/fetcher/transaction_fetcher.rs:61-70 | when every fetch succeeds, the batch is every transaction, in page order |
| TransactionFetcher.NoneFetched | src/fetcher/transaction_fetcher.rs:61-70 | when every fetch fails, the batch is empty and no error is returned |
| TransactionFetcher.OnlyFetched | src/fetcher/transaction_fetcher.rs:61-70 | every transaction in a batch is the answer for one of the page's signatures |
| TransactionFetcher.PaginationExample | src/fetcher/transaction_fetcher.rs:103-157 | pages `[sig1, sig2]`, `[sig3]` and `[]` give those batches, move the checkpoint to `sig2` and then `sig3`, and the empty page leaves it at `sig3` |

## Left out

- Networking and foreign code are not modelled: the `solana_client` RPC calls, the `governor` token bucket, `tokio` sleeping and locking, and `reqwest`. The network is an oracle, waiting for a permit becomes a ghost permit count, and a sleep becomes an entry in a ghost log.
- Concurrency is not modelled: the `RwLock` cells run as plain sequential state and `async` as sequential calls. The transaction oracle is deterministic, so the same signature always gets the same answer.
- The `metrics` counters and histograms of the core health records are not modelled; they have no effect on the records.
- Floating-point fields and computations are not modelled: `avg_response_time_ms`, `current_rps` and `health_score`. `get_healthiest_endpoint` ranks by a caller-given integer score instead of `health_score`. The backoff multiplier's range is modelled over reals; `f64` rounding and NaN are not.
- Wall-clock stamps are not modelled: `last_check` of `HealthStatus` and the `Utc` stamps. `Instant` values are integers in milliseconds.
- RpcClient.SolanaRpcClient.WithRetry: does not model the 64-bit overflow of `retry_delay_ms * 2u64.pow(attempts)`, because integers are unbounded; the same holds for every `u32`/`u64` counter.
- RpcClient.SolanaRpcClient.WithRetry: the operation takes no time, so the recorded response time counts only the loop's sleeps.
- RpcHealth.HealthMonitor.CheckHealth: requires a non-empty endpoint list, because the source indexes `stats[current]` and would panic on an empty one; `switch_endpoint` likewise requires one because of `% 0`.
- CoreConfig.ParseScheme: `Url::parse` is modelled by its input cleaning (trimming leading and trailing C0 controls and spaces, removing every tab and newline) and by the scheme it then finds and lower-cases. The rest of URL syntax, such as hosts and ports, is not checked, so a URL such as `http:` with no host passes in the model although `Url::parse` rejects it. The `#[validate(url)]` rule is taken to be the same parse.
- CoreConfig.UrlRule: its characterisation is over the cleaned URL and inherits the ParseScheme limit on hosts and ports.
- CoreConfig.ValidateUrl: inherits the ParseScheme limit on hosts and ports.
- CoreHealth.FirstMatch: URLs are compared as strings, not as normalised `Url` values.
- `Client::is_healthy` and `Client::get_metrics` are stubs in the source and are not modelled; `Client::config` and the `health_monitor`/`rate_limiter` getters only hand out fields.
- `fetch_all` is `unimplemented!()` in the source and is not modelled.
- `Config::from_file`, `save_to_file` and `from_env` of src/core/config.rs are file and environment I/O and are not modelled.
- Display texts are modelled for `RpcError` and `FetchError`; the texts of foreign errors are kept as opaque strings.
