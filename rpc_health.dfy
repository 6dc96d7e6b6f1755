/**
  The RPC layer's health monitor: one statistics record per configured
  endpoint, updated in place, and a cursor naming the endpoint in use.

  Clock reads (`Instant::now`) are an integer `now` in milliseconds passed by
  the caller. The floating-point fields of the record (average response time,
  current rate) are not part of this model.
*/
module RpcHealth {
  import opened Base
  import opened RpcErrors
  import RpcConfigs

  /** An endpoint counts as healthy after a success less than 30 seconds ago. */
  const HealthyWindowMs: int := 30_000

  /** The integer fields of `EndpointStats`; timestamps are milliseconds. */
  datatype EndpointStats = EndpointStats(
    successfulRequests: nat,
    failedRequests: nat,
    totalBytesTransferred: nat,
    lastSuccess: Option<int>,
    lastFailure: Option<int>)

  /** `EndpointStats::default` */
  const ZeroStats := EndpointStats(0, 0, 0, None, None)

  /** The `HealthStatus` result of a check; its `last_check` wall-clock stamp is not modelled. */
  datatype HealthStatus = HealthStatus(isHealthy: bool, error: Option<string>)

  const Healthy := HealthStatus(true, None)
  const Unhealthy := HealthStatus(false, Some("Unhealthy"))

  /** A success strictly less than 30 seconds before `now`; a stamp later than `now` counts as zero time ago. */
  predicate RecentlySucceeded(s: EndpointStats, now: int) {
    s.lastSuccess.Some? && now - s.lastSuccess.value < HealthyWindowMs
  }

  /** What `record_success` does to one record at time `now`. */
  function AfterSuccess(s: EndpointStats, bytes: nat, now: int): EndpointStats {
    s.(successfulRequests := s.successfulRequests + 1,
       totalBytesTransferred := s.totalBytesTransferred + bytes,
       lastSuccess := Some(now))
  }

  /** What `record_failure` does to one record at time `now`. */
  function AfterFailure(s: EndpointStats, now: int): EndpointStats {
    s.(failedRequests := s.failedRequests + 1, lastFailure := Some(now))
  }

  /** The lowest index at or after `from` whose endpoint succeeded recently. */
  function FirstRecent(stats: seq<EndpointStats>, now: int, from: nat): (r: Option<nat>)
    requires from <= |stats|
    ensures r.Some? ==> from <= r.value < |stats| && RecentlySucceeded(stats[r.value], now)
    ensures r.Some? ==> forall j :: from <= j < r.value ==> !RecentlySucceeded(stats[j], now)
    ensures r.None? <==> forall j :: from <= j < |stats| ==> !RecentlySucceeded(stats[j], now)
    decreases |stats| - from
  {
    if from == |stats| then None
    else if RecentlySucceeded(stats[from], now) then Some(from)
    else FirstRecent(stats, now, from + 1)
  }

  /**
    The endpoint `check_health` settles on: the current one if it is healthy,
    else the first healthy one, else none.
  */
  function HealthyChoice(stats: seq<EndpointStats>, current: nat, now: int): Option<nat>
    requires current < |stats|
  {
    if RecentlySucceeded(stats[current], now) then Some(current) else FirstRecent(stats, now, 0)
  }

  /** `(current + 1) % n`, the round-robin step of `switch_endpoint`. */
  function NextIndex(current: nat, n: nat): (r: nat)
    requires n > 0
    ensures r < n
  {
    (current + 1) % n
  }

  class HealthMonitor {
    const config: RpcConfigs.RpcConfig
    var stats: seq<EndpointStats>
    var current: nat

    /** One record per configured endpoint, and the cursor on one of them. */
    ghost predicate Valid()
      reads this
    {
      |stats| == |config.endpoints| &&
      (|stats| == 0 ==> current == 0) &&
      (|stats| > 0 ==> current < |stats|)
    }

    /** `HealthMonitor::new`: zeroed statistics for every endpoint, cursor at 0. */
    constructor (config: RpcConfigs.RpcConfig)
      ensures Valid()
      ensures this.config == config
      ensures stats == seq(|config.endpoints|, _ => ZeroStats)
      ensures current == 0
    {
      this.config := config;
      stats := seq(|config.endpoints|, _ => ZeroStats);
      current := 0;
    }

    /** `get_stats` */
    function Stats(): (r: seq<EndpointStats>)
      reads this
      ensures Valid() ==> |r| == |config.endpoints|
    {
      stats
    }

    /** `get_current_endpoint` */
    function CurrentEndpoint(): (r: nat)
      reads this
      ensures Valid() && |config.endpoints| > 0 ==> r < |config.endpoints|
    {
      current
    }

    /**
      `check_health`: healthy when the current endpoint succeeded recently;
      otherwise moves the cursor to the first endpoint that did and reports
      healthy, or leaves it and reports unhealthy. The source indexes the
      record list, so it needs a non-empty list.
    */
    method CheckHealth(now: int) returns (status: HealthStatus)
      requires Valid() && |stats| > 0
      modifies this`current
      ensures Valid()
      ensures status == if HealthyChoice(stats, old(current), now).Some? then Healthy else Unhealthy
      ensures current == HealthyChoice(stats, old(current), now).GetOr(old(current))
      ensures status.isHealthy <==> exists i :: 0 <= i < |stats| && RecentlySucceeded(stats[i], now)
      ensures status.isHealthy ==> RecentlySucceeded(stats[current], now)
    {
      if RecentlySucceeded(stats[current], now) {
        return Healthy;
      }
      for idx := 0 to |stats|
        invariant forall j :: 0 <= j < idx ==> !RecentlySucceeded(stats[j], now)
        invariant current == old(current)
      {
        if RecentlySucceeded(stats[idx], now) {
          current := idx;
          return Healthy;
        }
      }
      return Unhealthy;
    }

    /**
      `record_success`: one more success and `bytes` more bytes on endpoint
      `idx`, stamped `now`; an index past the end is refused and nothing changes.
    */
    method RecordSuccess(idx: nat, responseTimeMs: nat, bytes: nat, now: int)
      returns (r: Result<(), RpcError>)
      requires Valid()
      modifies this`stats
      ensures Valid()
      ensures r.Err? <==> idx >= |old(stats)|
      ensures r.Err? ==> r.error == InvalidEndpoint(idx) && stats == old(stats)
      ensures r.Ok? ==> stats == old(stats)[idx := AfterSuccess(old(stats)[idx], bytes, now)]
      ensures r.Ok? ==> (
        && stats[idx].successfulRequests == old(stats)[idx].successfulRequests + 1
        && stats[idx].totalBytesTransferred == old(stats)[idx].totalBytesTransferred + bytes
        && stats[idx].lastSuccess == Some(now)
        && stats[idx].failedRequests == old(stats)[idx].failedRequests
        && stats[idx].lastFailure == old(stats)[idx].lastFailure)
    {
      if idx >= |stats| {
        return Err(InvalidEndpoint(idx));
      }
      stats := stats[idx := AfterSuccess(stats[idx], bytes, now)];
      return Ok(());
    }

    /**
      `record_failure`: one more failure on endpoint `idx`, stamped `now`;
      the success counters are left alone; an index past the end is refused.
    */
    method RecordFailure(idx: nat, now: int) returns (r: Result<(), RpcError>)
      requires Valid()
      modifies this`stats
      ensures Valid()
      ensures r.Err? <==> idx >= |old(stats)|
      ensures r.Err? ==> r.error == InvalidEndpoint(idx) && stats == old(stats)
      ensures r.Ok? ==> stats == old(stats)[idx := AfterFailure(old(stats)[idx], now)]
      ensures r.Ok? ==> (
        && stats[idx].failedRequests == old(stats)[idx].failedRequests + 1
        && stats[idx].lastFailure == Some(now)
        && stats[idx].successfulRequests == old(stats)[idx].successfulRequests
        && stats[idx].totalBytesTransferred == old(stats)[idx].totalBytesTransferred
        && stats[idx].lastSuccess == old(stats)[idx].lastSuccess)
    {
      if idx >= |stats| {
        return Err(InvalidEndpoint(idx));
      }
      stats := stats[idx := AfterFailure(stats[idx], now)];
      return Ok(());
    }

    /** `switch_endpoint`: round robin; `% 0` would panic, so endpoints must exist. */
    method SwitchEndpoint() returns (r: Result<(), RpcError>)
      requires Valid() && |config.endpoints| > 0
      modifies this`current
      ensures Valid() && r == Ok(())
      ensures current == NextIndex(old(current), |config.endpoints|)
    {
      current := (current + 1) % |config.endpoints|;
      return Ok(());
    }
  }

  /** A freshly zeroed monitor reports unhealthy: no endpoint has succeeded yet. */
  lemma StartsUnhealthy(n: nat, current: nat, now: int)
    requires current < n
    ensures HealthyChoice(seq(n, _ => ZeroStats), current, now) == None
  {
    var stats := seq(n, _ => ZeroStats);
    assert forall j :: 0 <= j < n ==> !RecentlySucceeded(stats[j], now);
  }

  /** A success within the window makes the endpoint healthy. */
  lemma SuccessMakesRecent(s: EndpointStats, bytes: nat, at: int, now: int)
    requires now - at < HealthyWindowMs
    ensures RecentlySucceeded(AfterSuccess(s, bytes, at), now)
  {
  }

  /** A failure never changes whether an endpoint succeeded recently. */
  lemma FailureKeepsRecency(s: EndpointStats, at: int, now: int)
    ensures RecentlySucceeded(AfterFailure(s, at), now) == RecentlySucceeded(s, now)
    ensures AfterFailure(s, at).lastSuccess == s.lastSuccess
    ensures AfterFailure(s, at).successfulRequests == s.successfulRequests
  {
  }

  /** The choice is always a healthy endpoint, and the current one is kept when healthy. */
  lemma HealthyChoiceSound(stats: seq<EndpointStats>, current: nat, now: int)
    requires current < |stats|
    ensures HealthyChoice(stats, current, now).Some? ==>
      HealthyChoice(stats, current, now).value < |stats| &&
      RecentlySucceeded(stats[HealthyChoice(stats, current, now).value], now)
    ensures RecentlySucceeded(stats[current], now) ==> HealthyChoice(stats, current, now) == Some(current)
    ensures HealthyChoice(stats, current, now).None? <==>
      forall j :: 0 <= j < |stats| ==> !RecentlySucceeded(stats[j], now)
  {
  }
}
