/**
  The Solana RPC client: construction from a configuration, the retry loop
  every request goes through, the two requests that use it, switching the
  inner connection to another endpoint, and the current-endpoint query.

  The network is an oracle: the operation handed to the retry loop is a
  function from the invocation number to that invocation's outcome. Waiting
  for a rate-limit permit and sleeping are recorded in ghost logs; the clock
  is an integer number of milliseconds that moves only by the loop's sleeps.
*/
module RpcClient {
  import opened Base
  import opened RpcErrors
  import opened RpcConfigs
  import RateLimits
  import RpcHealth

  /** The index of the first enabled endpoint at or after `from`. */
  function FirstEnabled(endpoints: seq<EndpointConfig>, from: nat): (r: Option<nat>)
    requires from <= |endpoints|
    ensures r.Some? ==> from <= r.value < |endpoints| && endpoints[r.value].enabled
    ensures r.Some? ==> forall j :: from <= j < r.value ==> !endpoints[j].enabled
    ensures r.None? <==> forall j :: from <= j < |endpoints| ==> !endpoints[j].enabled
    decreases |endpoints| - from
  {
    if from == |endpoints| then None
    else if endpoints[from].enabled then Some(from)
    else FirstEnabled(endpoints, from + 1)
  }

  /**
    What `SolanaRpcClient::new` decides: the rate limiter is built first, and
    only then is the first enabled endpoint looked for.
  */
  function Setup(config: RpcConfig): (r: Result<(RateLimits.RateLimiter, EndpointConfig), RpcError>)
    ensures r.Ok? ==> r.value.1 in config.endpoints && r.value.1.enabled
    ensures r.Err? ==> r.error == NoEnabledEndpoints || (r.error.InvalidConfig? && !IsRetryable(r.error))
  {
    match RateLimits.New(config.rateLimit)
    case Err(e) => Err(e)
    case Ok(limiter) =>
      match FirstEnabled(config.endpoints, 0)
      case None => Err(NoEnabledEndpoints)
      case Some(i) => Ok((limiter, config.endpoints[i]))
  }

  /** `Client::current_endpoint`: the first enabled endpoint's URL, or the empty string. */
  function CurrentEndpointOf(config: RpcConfig): (url: string)
    ensures (exists j :: 0 <= j < |config.endpoints| && config.endpoints[j].enabled) ==>
      exists j :: 0 <= j < |config.endpoints| && config.endpoints[j].enabled && config.endpoints[j].url == url
    ensures (forall j :: 0 <= j < |config.endpoints| ==> !config.endpoints[j].enabled) ==> url == ""
  {
    match FirstEnabled(config.endpoints, 0)
    case Some(i) => config.endpoints[i].url
    case None => ""
  }

  // ---------------------------------------------------------------------
  // The retry loop, as a function of the operation's outcomes
  // ---------------------------------------------------------------------

  /** One health record written by the loop, with its time stamp. */
  datatype Record = Success(at: int) | Failure(at: int)

  /**
    Everything one run of `with_retry` does: its result, how many times it
    invoked the operation, the health records it wrote in order, and the
    backoffs it slept, in milliseconds.
  */
  datatype Trace<T> = Trace(
    result: Result<T, RpcError>,
    invocations: nat,
    records: seq<Record>,
    sleeps: seq<nat>)

  /** The backoff after the `k`-th retryable failure. */
  function Backoff(delayMs: nat, k: nat): (b: nat) {
    delayMs * Pow2(k)
  }

  /** The first backoff factor is the delay itself, and each one after it doubles the one before. */
  lemma BackoffDoubles(delayMs: nat, k: nat)
    ensures Backoff(delayMs, 0) == delayMs
    ensures Backoff(delayMs, k + 1) == 2 * Backoff(delayMs, k)
  {
    assert delayMs * (2 * Pow2(k)) == 2 * (delayMs * Pow2(k));
  }

  /** The error returned when the budget ran out before any retryable failure. */
  function ExhaustedError(operation: string, attempts: nat): RpcError {
    Internal(operation + " failed after " + NatToString(attempts) + " attempts")
  }

  /** The loop of `with_retry`, from a state with `attempts` retryable failures behind it. */
  function RetryFrom<T>(
    operation: string, maxAttempts: nat, delayMs: nat, f: nat -> Result<T, RpcError>,
    attempts: nat, lastError: Option<RpcError>, clock: int,
    records: seq<Record>, sleeps: seq<nat>): (t: Trace<T>)
    decreases maxAttempts - attempts
  {
    if attempts < maxAttempts then
      match f(attempts)
      case Ok(v) => Trace(Ok(v), attempts + 1, records + [Success(clock)], sleeps)
      case Err(e) =>
        if !IsRetryable(e) then
          Trace(Err(WithContext(e, operation + " failed")), attempts + 1, records + [Failure(clock)], sleeps)
        else
          var backoff := Backoff(delayMs, attempts + 1);
          RetryFrom(operation, maxAttempts, delayMs, f, attempts + 1, Some(e), clock + backoff,
                    records + [Failure(clock)], sleeps + [backoff])
    else
      Trace(Err(lastError.GetOr(ExhaustedError(operation, attempts))), attempts, records, sleeps)
  }

  /** A whole run of `with_retry` started at time `now`. */
  function Retry<T>(operation: string, retry: RetryConfig, f: nat -> Result<T, RpcError>, now: int): Trace<T> {
    RetryFrom(operation, retry.maxRetries, retry.retryDelayMs, f, 0, None, now, [], [])
  }

  /** The effect of a sequence of health records on one endpoint's statistics. */
  function ApplyRecords(s: RpcHealth.EndpointStats, records: seq<Record>): (r: RpcHealth.EndpointStats)
    ensures r.totalBytesTransferred == s.totalBytesTransferred
    ensures r.successfulRequests + r.failedRequests == s.successfulRequests + s.failedRequests + |records|
    decreases |records|
  {
    if records == [] then s
    else
      var before := ApplyRecords(s, records[..|records| - 1]);
      match records[|records| - 1]
      case Success(at) => RpcHealth.AfterSuccess(before, 0, at)
      case Failure(at) => RpcHealth.AfterFailure(before, at)
  }

  /** The number of success records. */
  function Successes(records: seq<Record>): (n: nat)
    ensures n <= |records|
    decreases |records|
  {
    if records == [] then 0
    else Successes(records[..|records| - 1]) + (if records[|records| - 1].Success? then 1 else 0)
  }

  // ---------------------------------------------------------------------
  // The client object
  // ---------------------------------------------------------------------

  class SolanaRpcClient {
    const config: RpcConfig
    const healthMonitor: RpcHealth.HealthMonitor
    const rateLimiter: RateLimits.RateLimiter
    /** The endpoint URL the inner `RpcClient` talks to. */
    var activeUrl: string
    const currentEndpointIdx: nat
    const currentEndpointUrl: string
    /** Permits taken from the rate limiter so far. */
    ghost var permitsTaken: nat
    /** Every backoff slept so far, in milliseconds. */
    ghost var sleepLog: seq<nat>

    ghost predicate Valid()
      reads this, healthMonitor
    {
      healthMonitor.Valid() && healthMonitor.config == config && |config.endpoints| >= 1
    }

    constructor (config: RpcConfig, healthMonitor: RpcHealth.HealthMonitor,
                 rateLimiter: RateLimits.RateLimiter, url: string)
      ensures this.config == config && this.healthMonitor == healthMonitor
      ensures this.rateLimiter == rateLimiter
      ensures activeUrl == url && currentEndpointIdx == 0 && currentEndpointUrl == url
      ensures permitsTaken == 0 && sleepLog == []
    {
      this.config := config;
      this.healthMonitor := healthMonitor;
      this.rateLimiter := rateLimiter;
      activeUrl := url;
      currentEndpointIdx := 0;
      currentEndpointUrl := url;
      permitsTaken := 0;
      sleepLog := [];
    }

    /** `Client::current_endpoint` */
    function CurrentEndpoint(): string {
      CurrentEndpointOf(config)
    }

    /**
      `with_retry`: at most `max_retries` invocations, one permit before each,
      one health record after each on the current endpoint, an immediate
      return on success or on an error that is not retryable, and a sleep of
      `retry_delay_ms * 2^k` after the `k`-th retryable failure.
    */
    method WithRetry<T>(operation: string, f: nat -> Result<T, RpcError>, now: int)
      returns (r: Result<T, RpcError>)
      requires Valid()
      modifies this`permitsTaken, this`sleepLog, healthMonitor`stats
      ensures Valid()
      ensures r == Retry(operation, config.retry, f, now).result
      ensures permitsTaken == old(permitsTaken) + Retry(operation, config.retry, f, now).invocations
      ensures sleepLog == old(sleepLog) + Retry(operation, config.retry, f, now).sleeps
      ensures healthMonitor.current == old(healthMonitor.current)
      ensures healthMonitor.stats == old(healthMonitor.stats)[healthMonitor.current :=
        ApplyRecords(old(healthMonitor.stats)[healthMonitor.current],
                     Retry(operation, config.retry, f, now).records)]
    {
      var attempts: nat := 0;
      var maxAttempts := config.retry.maxRetries;
      var lastError: Option<RpcError> := None;
      var clock := now;
      ghost var records: seq<Record> := [];
      ghost var sleeps: seq<nat> := [];
      ghost var idx := healthMonitor.current;
      ghost var start := healthMonitor.stats;
      while attempts < maxAttempts
        invariant Valid() && healthMonitor.current == idx && clock >= now
        invariant RetryFrom(operation, maxAttempts, config.retry.retryDelayMs, f,
                            attempts, lastError, clock, records, sleeps)
               == Retry(operation, config.retry, f, now)
        invariant permitsTaken == old(permitsTaken) + attempts
        invariant sleepLog == old(sleepLog) + sleeps
        invariant healthMonitor.stats == start[idx := ApplyRecords(start[idx], records)]
        decreases maxAttempts - attempts
      {
        var _ := RateLimits.WaitForPermit(rateLimiter);
        permitsTaken := permitsTaken + 1;
        var outcome := f(attempts);
        var endpointIdx := healthMonitor.CurrentEndpoint();
        if outcome.Ok? {
          var _ := healthMonitor.RecordSuccess(endpointIdx, clock - now, 0, clock);
          records := records + [Success(clock)];
          return Ok(outcome.value);
        }
        var _ := healthMonitor.RecordFailure(endpointIdx, clock);
        records := records + [Failure(clock)];
        var e := outcome.error;
        if !IsRetryable(e) {
          return Err(WithContext(e, operation + " failed"));
        }
        lastError := Some(e);
        attempts := attempts + 1;
        var backoff := config.retry.retryDelayMs * Pow2(attempts);
        sleepLog := sleepLog + [backoff];
        sleeps := sleeps + [backoff];
        clock := clock + backoff;
      }
      return Err(lastError.GetOr(ExhaustedError(operation, attempts)));
    }

    /** `get_block`: a failed fetch becomes a request failure wrapped with the slot. */
    method GetBlock<B>(slot: nat, answers: nat -> Result<B, ClientError>, now: int)
      returns (r: Result<B, RpcError>)
      requires Valid()
      modifies this`permitsTaken, this`sleepLog, healthMonitor`stats
      ensures Valid()
      ensures r == Retry("get_block", config.retry, BlockCall(answers, slot), now).result
      ensures permitsTaken == old(permitsTaken) + Retry("get_block", config.retry, BlockCall(answers, slot), now).invocations
      ensures permitsTaken == old(permitsTaken) + (if config.retry.maxRetries == 0 then 0 else 1)
      ensures sleepLog == old(sleepLog)
      ensures config.retry.maxRetries > 0 && answers(0).Ok? ==> r == Ok(answers(0).value)
      ensures config.retry.maxRetries > 0 && answers(0).Err? ==>
        r == Err(Internal("get_block failed: " + BlockContext(slot) + ": " + answers(0).error.text))
      ensures healthMonitor.current == old(healthMonitor.current)
      ensures healthMonitor.stats == old(healthMonitor.stats)[healthMonitor.current :=
        ApplyRecords(old(healthMonitor.stats)[healthMonitor.current],
                     Retry("get_block", config.retry, BlockCall(answers, slot), now).records)]
    {
      WrappedFailureSingleAttempt("get_block", config.retry, answers, BlockContext(slot), now);
      if config.retry.maxRetries > 0 && answers(0).Err? {
        assert "get_block" + " failed: " + BlockContext(slot) + ": " + answers(0).error.text
            == "get_block failed: " + BlockContext(slot) + ": " + answers(0).error.text;
      }
      r := WithRetry("get_block", BlockCall(answers, slot), now);
    }

    /** `get_signature_status`: like `get_block`, wrapped with the signature. */
    method GetSignatureStatus<S>(signature: string, answers: nat -> Result<S, ClientError>, now: int)
      returns (r: Result<S, RpcError>)
      requires Valid()
      modifies this`permitsTaken, this`sleepLog, healthMonitor`stats
      ensures Valid()
      ensures r == Retry("get_signature_status", config.retry, SignatureCall(answers, signature), now).result
      ensures permitsTaken == old(permitsTaken) + Retry("get_signature_status", config.retry, SignatureCall(answers, signature), now).invocations
      ensures permitsTaken == old(permitsTaken) + (if config.retry.maxRetries == 0 then 0 else 1)
      ensures sleepLog == old(sleepLog)
      ensures config.retry.maxRetries > 0 && answers(0).Ok? ==> r == Ok(answers(0).value)
      ensures config.retry.maxRetries > 0 && answers(0).Err? ==>
        r == Err(Internal("get_signature_status failed: " + SignatureContext(signature) + ": " + answers(0).error.text))
      ensures healthMonitor.current == old(healthMonitor.current)
      ensures healthMonitor.stats == old(healthMonitor.stats)[healthMonitor.current :=
        ApplyRecords(old(healthMonitor.stats)[healthMonitor.current],
                     Retry("get_signature_status", config.retry, SignatureCall(answers, signature), now).records)]
    {
      WrappedFailureSingleAttempt("get_signature_status", config.retry, answers, SignatureContext(signature), now);
      if config.retry.maxRetries > 0 && answers(0).Err? {
        assert "get_signature_status" + " failed: " + SignatureContext(signature) + ": " + answers(0).error.text
            == "get_signature_status failed: " + SignatureContext(signature) + ": " + answers(0).error.text;
      }
      r := WithRetry("get_signature_status", SignatureCall(answers, signature), now);
    }

    /**
      `update_client`: points the inner connection at endpoint `idx`, or
      refuses an index past the end. The cursor fields are not touched.
    */
    method UpdateClient(idx: nat) returns (r: Result<(), RpcError>)
      modifies this`activeUrl
      ensures r.Err? <==> idx >= |config.endpoints|
      ensures r.Err? ==> r.error == InvalidEndpoint(idx) && activeUrl == old(activeUrl)
      ensures r.Ok? ==> activeUrl == config.endpoints[idx].url
    {
      if idx >= |config.endpoints| {
        return Err(InvalidEndpoint(idx));
      }
      activeUrl := config.endpoints[idx].url;
      return Ok(());
    }
  }

  /**
    `SolanaRpcClient::new`: builds the health monitor, then the rate limiter
    (whose error is returned as is), then connects to the first enabled endpoint.
  */
  method New(config: RpcConfig) returns (r: Result<SolanaRpcClient, RpcError>)
    ensures r.Err? <==> Setup(config).Err?
    ensures r.Err? ==> r.error == Setup(config).error
    ensures r.Ok? ==> fresh(r.value) && fresh(r.value.healthMonitor) && r.value.Valid()
    ensures r.Ok? ==> r.value.config == config && r.value.rateLimiter == Setup(config).value.0
    ensures r.Ok? ==> r.value.currentEndpointIdx == 0
    ensures r.Ok? ==> r.value.currentEndpointUrl == Setup(config).value.1.url == r.value.activeUrl
    ensures r.Ok? ==> r.value.CurrentEndpoint() == r.value.currentEndpointUrl
    ensures r.Ok? ==> r.value.healthMonitor.current == 0
    ensures r.Ok? ==> r.value.healthMonitor.stats == seq(|config.endpoints|, _ => RpcHealth.ZeroStats)
    ensures r.Ok? ==> r.value.permitsTaken == 0 && r.value.sleepLog == []
  {
    var monitor := new RpcHealth.HealthMonitor(config);
    var limiter := RateLimits.New(config.rateLimit);
    if limiter.Err? {
      return Err(limiter.error);
    }
    var found := FirstEnabled(config.endpoints, 0);
    if found.None? {
      return Err(NoEnabledEndpoints);
    }
    var endpoint := config.endpoints[found.value];
    var client := new SolanaRpcClient(config, monitor, limiter.value, endpoint.url);
    return Ok(client);
  }

  // ---------------------------------------------------------------------
  // The closures of get_block and get_signature_status
  // ---------------------------------------------------------------------

  function BlockContext(slot: nat): string {
    "Failed to get block at slot " + NatToString(slot)
  }

  function SignatureContext(signature: string): string {
    "Failed to get status for signature " + signature
  }

  /** A node answer turned into the closure's outcome: a failure is wrapped with `context`. */
  function Wrapped<T>(answer: Result<T, ClientError>, context: string): Result<T, RpcError> {
    match answer
    case Ok(v) => Ok(v)
    case Err(e) => Err(WithContext(RequestFailed(e), context))
  }

  function BlockCall<B>(answers: nat -> Result<B, ClientError>, slot: nat): nat -> Result<B, RpcError> {
    (k: nat) => Wrapped(answers(k), BlockContext(slot))
  }

  function SignatureCall<S>(answers: nat -> Result<S, ClientError>, signature: string): nat -> Result<S, RpcError> {
    (k: nat) => Wrapped(answers(k), SignatureContext(signature))
  }

  // ---------------------------------------------------------------------
  // Properties of construction
  // ---------------------------------------------------------------------

  /** With a usable rate limit, construction fails exactly when no endpoint is enabled. */
  lemma NewFailsIffNoneEnabled(config: RpcConfig)
    requires RateLimitValid(config.rateLimit)
    ensures Setup(config) == Err(NoEnabledEndpoints) <==>
      forall j :: 0 <= j < |config.endpoints| ==> !config.endpoints[j].enabled
    ensures Setup(config).Ok? <==> exists j :: 0 <= j < |config.endpoints| && config.endpoints[j].enabled
  {
    if Setup(config).Ok? {
      var i := FirstEnabled(config.endpoints, 0).value;
      assert config.endpoints[i].enabled;
    }
  }

  /** A bad rate limit is reported even when no endpoint is enabled. */
  lemma RateLimitCheckedFirst(config: RpcConfig)
    requires !RateLimitValid(config.rateLimit)
    ensures Setup(config).Err? && Setup(config).error.InvalidConfig?
    ensures Setup(config) == Err(RateLimits.New(config.rateLimit).error)
  {
  }

  /**
    The client connects to the first enabled endpoint, whatever its position,
    records cursor 0, and `current_endpoint` names that same endpoint's URL.
  */
  lemma SetupPicksFirstEnabled(config: RpcConfig, i: nat)
    requires RateLimitValid(config.rateLimit)
    requires i < |config.endpoints| && config.endpoints[i].enabled
    requires forall j :: 0 <= j < i ==> !config.endpoints[j].enabled
    ensures Setup(config).Ok? && Setup(config).value.1 == config.endpoints[i]
    ensures CurrentEndpointOf(config) == config.endpoints[i].url
  {
    FirstEnabledUnique(config.endpoints, 0, i);
  }

  lemma {:induction false} FirstEnabledUnique(endpoints: seq<EndpointConfig>, from: nat, i: nat)
    requires from <= i < |endpoints| && endpoints[i].enabled
    requires forall j :: from <= j < i ==> !endpoints[j].enabled
    ensures FirstEnabled(endpoints, from) == Some(i)
    decreases i - from
  {
    if from < i {
      FirstEnabledUnique(endpoints, from + 1, i);
    }
  }

  /** With no endpoint enabled, the current endpoint is the empty string. */
  lemma NoneEnabledEmptyUrl(config: RpcConfig)
    requires forall j :: 0 <= j < |config.endpoints| ==> !config.endpoints[j].enabled
    ensures CurrentEndpointOf(config) == ""
  {
  }

  /** The default configuration builds a client on `http://localhost:8899`. */
  lemma DefaultBuilds()
    ensures Setup(Default()) == Ok((RateLimits.RateLimiter(100, 10), Default().endpoints[0]))
    ensures CurrentEndpointOf(Default()) == "http://localhost:8899"
  {
  }

  // ---------------------------------------------------------------------
  // Properties of the retry loop
  // ---------------------------------------------------------------------

  /** The shape every run has, stated from an intermediate loop state. */
  lemma {:induction false} RetryFromShape<T>(
    operation: string, maxAttempts: nat, delayMs: nat, f: nat -> Result<T, RpcError>,
    attempts: nat, lastError: Option<RpcError>, clock: int, records: seq<Record>, sleeps: seq<nat>)
    requires attempts <= maxAttempts
    requires |records| == attempts && |sleeps| == attempts
    requires forall i :: 0 <= i < |records| ==> records[i].Failure?
    requires forall k :: 0 <= k < |sleeps| ==> sleeps[k] == Backoff(delayMs, k + 1)
    ensures var t := RetryFrom(operation, maxAttempts, delayMs, f, attempts, lastError, clock, records, sleeps);
      && attempts <= t.invocations <= maxAttempts
      && |t.records| == t.invocations
      && t.records[..attempts] == records
      && (forall i :: 0 <= i < |t.records| - 1 ==> t.records[i].Failure?)
      && (t.result.Ok? <==> (|t.records| > 0 && t.records[|t.records| - 1].Success?))
      && (t.result.Ok? ==> t.invocations > 0 && f(t.invocations - 1) == t.result)
      && (|t.sleeps| == t.invocations || |t.sleeps| + 1 == t.invocations)
      && attempts <= |t.sleeps|
      && t.sleeps[..attempts] == sleeps
      && (forall k :: 0 <= k < |t.sleeps| ==> t.sleeps[k] == Backoff(delayMs, k + 1))
    decreases maxAttempts - attempts
  {
    if attempts < maxAttempts {
      match f(attempts)
      case Ok(v) =>
      case Err(e) =>
        if IsRetryable(e) {
          var backoff := Backoff(delayMs, attempts + 1);
          RetryFromShape(operation, maxAttempts, delayMs, f, attempts + 1, Some(e), clock + backoff,
                         records + [Failure(clock)], sleeps + [backoff]);
          var t := RetryFrom(operation, maxAttempts, delayMs, f, attempts + 1, Some(e), clock + backoff,
                             records + [Failure(clock)], sleeps + [backoff]);
          assert t.records[..attempts] == (t.records[..attempts + 1])[..attempts];
          assert t.sleeps[..attempts] == (t.sleeps[..attempts + 1])[..attempts];
        }
    }
  }

  /**
    Bounds of a whole run: at most `max_retries` invocations, each with one
    health record; every record but the last is a failure; the run succeeds
    exactly when its last record is a success, with that invocation's value;
    the `k`-th sleep (from 1) lasts `retry_delay_ms * 2^k`.
  */
  lemma RetryBounded<T>(operation: string, retry: RetryConfig, f: nat -> Result<T, RpcError>, now: int)
    ensures var t := Retry(operation, retry, f, now);
      && t.invocations <= retry.maxRetries
      && |t.records| == t.invocations
      && Successes(t.records) <= 1
      && (forall i :: 0 <= i < |t.records| - 1 ==> t.records[i].Failure?)
      && (t.result.Ok? <==> Successes(t.records) == 1)
      && (t.result.Ok? ==> f(t.invocations - 1) == t.result)
      && |t.sleeps| <= t.invocations
      && (forall k :: 0 <= k < |t.sleeps| ==> t.sleeps[k] == retry.retryDelayMs * Pow2(k + 1))
  {
    RetryFromShape(operation, retry.maxRetries, retry.retryDelayMs, f, 0, None, now, [], []);
    var t := Retry(operation, retry, f, now);
    SuccessesOfShape(t.records);
  }

  /** Counting successes in a run whose records are all failures but maybe the last. */
  lemma {:induction false} SuccessesOfShape(records: seq<Record>)
    requires forall i :: 0 <= i < |records| - 1 ==> records[i].Failure?
    ensures Successes(records) == (if |records| > 0 && records[|records| - 1].Success? then 1 else 0)
    decreases |records|
  {
    if |records| > 0 {
      var init := records[..|records| - 1];
      AllFailuresNoSuccess(init);
    }
  }

  lemma {:induction false} AllFailuresNoSuccess(records: seq<Record>)
    requires forall i :: 0 <= i < |records| ==> records[i].Failure?
    ensures Successes(records) == 0
    decreases |records|
  {
    if |records| > 0 {
      AllFailuresNoSuccess(records[..|records| - 1]);
    }
  }

  /**
    The counters a list of records leaves behind: one more success per
    success record, one more failure per failure record, and the byte count
    untouched.
  */
  lemma {:induction false} ApplyRecordsCounts(s: RpcHealth.EndpointStats, records: seq<Record>)
    ensures ApplyRecords(s, records).successfulRequests == s.successfulRequests + Successes(records)
    ensures ApplyRecords(s, records).failedRequests + Successes(records) == s.failedRequests + |records|
    ensures ApplyRecords(s, records).totalBytesTransferred == s.totalBytesTransferred
    decreases |records|
  {
    if records != [] {
      ApplyRecordsCounts(s, records[..|records| - 1]);
    }
  }

  /**
    What one `with_retry` run does to the current endpoint's counters: one
    success if it succeeded, and one failure for every other invocation.
  */
  lemma RetryHealthEffect<T>(
    operation: string, retry: RetryConfig, f: nat -> Result<T, RpcError>, now: int, s: RpcHealth.EndpointStats)
    ensures var t := Retry(operation, retry, f, now);
      var after := ApplyRecords(s, t.records);
      && after.successfulRequests == s.successfulRequests + (if t.result.Ok? then 1 else 0)
      && after.failedRequests == s.failedRequests + t.invocations - (if t.result.Ok? then 1 else 0)
      && after.totalBytesTransferred == s.totalBytesTransferred
  {
    var t := Retry(operation, retry, f, now);
    RetryBounded(operation, retry, f, now);
    ApplyRecordsCounts(s, t.records);
  }

  /** With a zero budget the operation is never invoked and the result is an internal error. */
  lemma RetryZeroBudget<T>(operation: string, retry: RetryConfig, f: nat -> Result<T, RpcError>, now: int)
    requires retry.maxRetries == 0
    ensures Retry(operation, retry, f, now)
         == Trace(Err(Internal(operation + " failed after 0 attempts")), 0, [], [])
  {
    assert NatToString(0) == "0";
    assert operation + " failed after " + "0" + " attempts" == operation + " failed after 0 attempts";
  }

  /** From an intermediate state: the run stops at the first invocation that does not fail retryably. */
  lemma {:induction false} RetryFromStopsAt<T>(
    operation: string, maxAttempts: nat, delayMs: nat, f: nat -> Result<T, RpcError>,
    attempts: nat, lastError: Option<RpcError>, clock: int, records: seq<Record>, sleeps: seq<nat>, k: nat)
    requires attempts <= k < maxAttempts
    requires forall i :: attempts <= i < k ==> f(i).Err? && IsRetryable(f(i).error)
    requires f(k).Ok? || !IsRetryable(f(k).error)
    ensures var t := RetryFrom(operation, maxAttempts, delayMs, f, attempts, lastError, clock, records, sleeps);
      && t.invocations == k + 1
      && t.result == (if f(k).Ok? then Ok(f(k).value) else Err(WithContext(f(k).error, operation + " failed")))
      && |t.records| == |records| + (k + 1 - attempts)
      && |t.sleeps| == |sleeps| + (k - attempts)
    decreases k - attempts
  {
    if attempts < k {
      var e := f(attempts).error;
      var backoff := Backoff(delayMs, attempts + 1);
      RetryFromStopsAt(operation, maxAttempts, delayMs, f, attempts + 1, Some(e), clock + backoff,
                       records + [Failure(clock)], sleeps + [backoff], k);
    }
  }

  /**
    The first invocation that succeeds, or fails with an error that is not
    retryable, ends the run: a success is returned as is, such an error after
    `with_context`; there were exactly `k + 1` invocations and `k` sleeps.
  */
  lemma RetryStopsAt<T>(operation: string, retry: RetryConfig, f: nat -> Result<T, RpcError>, now: int, k: nat)
    requires k < retry.maxRetries
    requires forall i :: 0 <= i < k ==> f(i).Err? && IsRetryable(f(i).error)
    requires f(k).Ok? || !IsRetryable(f(k).error)
    ensures var t := Retry(operation, retry, f, now);
      && t.invocations == k + 1
      && t.result == (if f(k).Ok? then Ok(f(k).value) else Err(WithContext(f(k).error, operation + " failed")))
      && |t.sleeps| == k
  {
    RetryFromStopsAt(operation, retry.maxRetries, retry.retryDelayMs, f, 0, None, now, [], [], k);
  }

  /** From an intermediate state: only retryable failures remain, so the budget runs out. */
  lemma {:induction false} RetryFromExhausts<T>(
    operation: string, maxAttempts: nat, delayMs: nat, f: nat -> Result<T, RpcError>,
    attempts: nat, lastError: Option<RpcError>, clock: int, records: seq<Record>, sleeps: seq<nat>)
    requires attempts <= maxAttempts
    requires forall i :: attempts <= i < maxAttempts ==> f(i).Err? && IsRetryable(f(i).error)
    ensures var t := RetryFrom(operation, maxAttempts, delayMs, f, attempts, lastError, clock, records, sleeps);
      && t.invocations == maxAttempts
      && t.result == (if attempts < maxAttempts then Err(f(maxAttempts - 1).error)
                      else Err(lastError.GetOr(ExhaustedError(operation, attempts))))
      && |t.sleeps| == |sleeps| + (maxAttempts - attempts)
      && |t.records| == |records| + (maxAttempts - attempts)
    decreases maxAttempts - attempts
  {
    if attempts < maxAttempts {
      var e := f(attempts).error;
      var backoff := Backoff(delayMs, attempts + 1);
      RetryFromExhausts(operation, maxAttempts, delayMs, f, attempts + 1, Some(e), clock + backoff,
                        records + [Failure(clock)], sleeps + [backoff]);
    }
  }

  /**
    When every invocation fails retryably, the run uses its whole budget,
    sleeps after every attempt including the last, and returns the last error.
  */
  lemma RetryExhausted<T>(operation: string, retry: RetryConfig, f: nat -> Result<T, RpcError>, now: int)
    requires retry.maxRetries > 0
    requires forall i :: 0 <= i < retry.maxRetries ==> f(i).Err? && IsRetryable(f(i).error)
    ensures var t := Retry(operation, retry, f, now);
      && t.invocations == retry.maxRetries
      && t.result == Err(f(retry.maxRetries - 1).error)
      && |t.sleeps| == retry.maxRetries
      && Successes(t.records) == 0
  {
    RetryFromExhausts(operation, retry.maxRetries, retry.retryDelayMs, f, 0, None, now, [], []);
    RetryBounded(operation, retry, f, now);
  }

  /**
    `get_block` and `get_signature_status` wrap every failure with
    `with_context`, which turns the retryable request failure into an
    internal error that is not retryable: a failure costs exactly one
    attempt, and no sleep.
  */
  lemma WrappedFailureSingleAttempt<T>(
    operation: string, retry: RetryConfig, answers: nat -> Result<T, ClientError>, context: string, now: int)
    ensures var t := Retry(operation, retry, (k: nat) => Wrapped(answers(k), context), now);
      && t.invocations == (if retry.maxRetries == 0 then 0 else 1)
      && t.sleeps == []
      && (retry.maxRetries > 0 && answers(0).Ok? ==> t.result == Ok(answers(0).value))
      && (retry.maxRetries > 0 && answers(0).Err? ==>
            t.result == Err(Internal(operation + " failed: " + context + ": " + answers(0).error.text)))
  {
    var f := (k: nat) => Wrapped(answers(k), context);
    if retry.maxRetries > 0 {
      assert f(0) == Wrapped(answers(0), context);
      RetryStopsAt(operation, retry, f, now, 0);
    }
    if retry.maxRetries > 0 && answers(0).Err? {
      assert (operation + " failed") + ": " + (context + ": " + answers(0).error.text)
          == operation + " failed: " + context + ": " + answers(0).error.text;
    }
  }
}
