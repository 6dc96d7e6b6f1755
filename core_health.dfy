/**
  Health bookkeeping of the `core` layer: one `EndpointHealth` record per
  endpoint URL, updated in place, with a healthy flag and a retry threshold,
  and a monitor that routes updates to the first record with a matching URL
  and picks the healthiest record that may still be retried.

  URLs are compared as strings. Clock reads (`Instant::now`) are an integer
  `now` passed by the caller. The floating-point `health_score` is replaced by
  an integer score function supplied by the caller; the metrics counters are
  not part of this model.
*/
module CoreHealth {
  import opened Base

  /** After this many errors an unhealthy endpoint is no longer retried. */
  const ErrorThreshold: nat := 3

  /** A snapshot of one `EndpointHealth` record, as `get_health_stats` clones it. */
  datatype HealthView = HealthView(
    url: string,
    responseTime: Duration,
    errorCount: nat,
    successCount: nat,
    lastError: Option<string>,
    lastSuccess: Option<int>,
    isHealthy: bool)

  /** `EndpointHealth::new`: healthy, no traffic recorded. */
  function FreshView(url: string): HealthView {
    HealthView(url, 0, 0, 0, None, None, true)
  }

  /** What `record_success` does to a record at time `now`. */
  function AfterSuccess(v: HealthView, responseTime: Duration, now: int): HealthView {
    v.(successCount := v.successCount + 1, responseTime := responseTime,
       lastSuccess := Some(now), isHealthy := true)
  }

  /** What `record_error` does to a record. */
  function AfterError(v: HealthView, error: string): HealthView {
    v.(errorCount := v.errorCount + 1, lastError := Some(error), isHealthy := false)
  }

  /** `should_retry`: healthy, or fewer errors than the threshold. */
  predicate Retryable(v: HealthView) {
    v.isHealthy || v.errorCount < ErrorThreshold
  }

  /** A sequence of errors recorded one after another, the first one first. */
  function AfterErrors(v: HealthView, errors: seq<string>): HealthView
    decreases |errors|
  {
    if |errors| == 0 then v else AfterError(AfterErrors(v, errors[..|errors| - 1]), errors[|errors| - 1])
  }

  /** The position of the first record whose URL is `url`: what `iter_mut().find` lands on. */
  function FirstMatch(views: seq<HealthView>, url: string, from: nat): (r: Option<nat>)
    requires from <= |views|
    ensures r.Some? ==> from <= r.value < |views| && views[r.value].url == url
    ensures r.Some? ==> forall j :: from <= j < r.value ==> views[j].url != url
    ensures r.None? <==> forall j :: from <= j < |views| ==> views[j].url != url
    decreases |views| - from
  {
    if from == |views| then None
    else if views[from].url == url then Some(from)
    else FirstMatch(views, url, from + 1)
  }

  /**
    `filter(should_retry).max_by(score)`: the retryable record with the
    highest score; among equal scores `max_by` keeps the last one.
  */
  function Healthiest(views: seq<HealthView>, score: HealthView -> int): (r: Option<nat>)
    ensures r.None? <==> forall j :: 0 <= j < |views| ==> !Retryable(views[j])
    ensures r.Some? ==> r.value < |views| && Retryable(views[r.value])
    ensures r.Some? ==> forall j :: 0 <= j < |views| && Retryable(views[j]) ==>
      score(views[j]) <= score(views[r.value])
    ensures r.Some? ==> forall j :: r.value < j < |views| && Retryable(views[j]) ==>
      score(views[j]) < score(views[r.value])
    decreases |views|
  {
    if |views| == 0 then None
    else
      var last := |views| - 1;
      var prev := Healthiest(views[..last], score);
      if !Retryable(views[last]) then prev
      else if prev.None? || score(views[prev.value]) <= score(views[last]) then Some(last)
      else prev
  }

  class EndpointHealth {
    const url: string
    var responseTime: Duration
    var errorCount: nat
    var successCount: nat
    var lastError: Option<string>
    var lastSuccess: Option<int>
    var isHealthy: bool

    /** The record's current contents. */
    function View(): HealthView
      reads this
    {
      HealthView(url, responseTime, errorCount, successCount, lastError, lastSuccess, isHealthy)
    }

    /** `EndpointHealth::new` */
    constructor (url: string)
      ensures View() == FreshView(url)
    {
      this.url := url;
      responseTime := 0;
      errorCount := 0;
      successCount := 0;
      lastError := None;
      lastSuccess := None;
      isHealthy := true;
    }

    /** `record_success`: one more success, its response time, stamped `now`, healthy again. */
    method RecordSuccess(responseTime: Duration, now: int)
      modifies this
      ensures View() == AfterSuccess(old(View()), responseTime, now)
    {
      successCount := successCount + 1;
      this.responseTime := responseTime;
      lastSuccess := Some(now);
      isHealthy := true;
    }

    /** `record_error`: one more error, the message kept, marked unhealthy. */
    method RecordError(error: string)
      modifies this
      ensures View() == AfterError(old(View()), error)
    {
      errorCount := errorCount + 1;
      lastError := Some(error);
      isHealthy := false;
    }

    /** `should_retry` */
    function ShouldRetry(): (r: bool)
      reads this
      ensures r == Retryable(View())
    {
      isHealthy || errorCount < 3
    }
  }

  class HealthMonitor {
    /** The records; the list itself never changes, the records do. */
    const endpoints: seq<EndpointHealth>

    /** Every record appears once, so updating one leaves the others alone. */
    ghost predicate Valid() {
      forall i, j :: 0 <= i < j < |endpoints| ==> endpoints[i] != endpoints[j]
    }

    /** `get_health_stats`: a snapshot of every record, in order. */
    function Views(): (r: seq<HealthView>)
      reads endpoints
      ensures |r| == |endpoints|
      ensures forall i :: 0 <= i < |endpoints| ==> r[i] == endpoints[i].View()
    {
      seq(|endpoints|, i reads endpoints requires 0 <= i < |endpoints| => endpoints[i].View())
    }

    /** `HealthMonitor::new`: one fresh record per URL, in the given order. */
    constructor (urls: seq<string>)
      ensures Valid()
      ensures |endpoints| == |urls|
      ensures forall i :: 0 <= i < |urls| ==> fresh(endpoints[i])
      ensures Views() == seq(|urls|, i requires 0 <= i < |urls| => FreshView(urls[i]))
    {
      var records: seq<EndpointHealth> := [];
      for k := 0 to |urls|
        invariant |records| == k
        invariant forall i :: 0 <= i < k ==> fresh(records[i])
        invariant forall i :: 0 <= i < k ==> records[i].View() == FreshView(urls[i])
        invariant forall i, j :: 0 <= i < j < k ==> records[i] != records[j]
      {
        var e := new EndpointHealth(urls[k]);
        records := records + [e];
      }
      endpoints := records;
    }

    /** Finds the first record whose URL is `url`, or the end of the list. */
    method Find(url: string) returns (r: Option<nat>)
      ensures r == FirstMatch(Views(), url, 0)
    {
      var i := 0;
      while i < |endpoints| && endpoints[i].url != url
        invariant i <= |endpoints|
        invariant forall j :: 0 <= j < i ==> Views()[j].url != url
      {
        i := i + 1;
      }
      r := if i < |endpoints| then Some(i) else None;
    }

    /**
      `record_success`: the first record whose URL is `url` records the
      success; an unknown URL changes nothing.
    */
    method RecordSuccess(url: string, responseTime: Duration, now: int)
      requires Valid()
      modifies endpoints
      ensures Valid()
      ensures FirstMatch(old(Views()), url, 0).None? ==> Views() == old(Views())
      ensures FirstMatch(old(Views()), url, 0).Some? ==>
        var i := FirstMatch(old(Views()), url, 0).value;
        Views() == old(Views())[i := AfterSuccess(old(Views())[i], responseTime, now)]
    {
      var found := Find(url);
      if found.Some? {
        var i := found.value;
        endpoints[i].RecordSuccess(responseTime, now);
        assert forall j :: 0 <= j < |endpoints| && j != i ==> endpoints[j] != endpoints[i];
      }
    }

    /**
      `record_error`: the first record whose URL is `url` records the error;
      an unknown URL changes nothing.
    */
    method RecordError(url: string, error: string)
      requires Valid()
      modifies endpoints
      ensures Valid()
      ensures FirstMatch(old(Views()), url, 0).None? ==> Views() == old(Views())
      ensures FirstMatch(old(Views()), url, 0).Some? ==>
        var i := FirstMatch(old(Views()), url, 0).value;
        Views() == old(Views())[i := AfterError(old(Views())[i], error)]
    {
      var found := Find(url);
      if found.Some? {
        var i := found.value;
        endpoints[i].RecordError(error);
        assert forall j :: 0 <= j < |endpoints| && j != i ==> endpoints[j] != endpoints[i];
      }
    }

    /**
      `get_healthiest_endpoint`: the URL of the best-scoring record that may
      still be retried, or none when every record is past its threshold.
    */
    function HealthiestEndpoint(score: HealthView -> int): (r: Option<string>)
      reads endpoints
      ensures r.None? <==> forall j :: 0 <= j < |endpoints| ==> !Retryable(endpoints[j].View())
      ensures r.Some? ==> exists j :: (
        && 0 <= j < |endpoints| && endpoints[j].url == r.value
        && Retryable(endpoints[j].View())
        && forall k :: 0 <= k < |endpoints| && Retryable(endpoints[k].View()) ==>
             score(endpoints[k].View()) <= score(endpoints[j].View()))
    {
      var views := Views();
      match Healthiest(views, score)
      case None => None
      case Some(i) => Some(views[i].url)
    }
  }

  // ---------------------------------------------------------------------
  // Properties
  // ---------------------------------------------------------------------

  /** A new record is healthy, may be retried and has recorded nothing. */
  lemma FreshRecord(url: string)
    ensures Retryable(FreshView(url))
    ensures FreshView(url).successCount == 0 && FreshView(url).errorCount == 0
    ensures FreshView(url).lastError.None? && FreshView(url).lastSuccess.None?
  {
  }

  /** A success makes the record healthy and retryable and leaves its error count alone. */
  lemma SuccessRestores(v: HealthView, responseTime: Duration, now: int)
    ensures Retryable(AfterSuccess(v, responseTime, now))
    ensures AfterSuccess(v, responseTime, now).isHealthy
    ensures AfterSuccess(v, responseTime, now).errorCount == v.errorCount
    ensures AfterSuccess(v, responseTime, now).url == v.url
  {
  }

  /** An error leaves the success count alone and the record may be retried only below the threshold. */
  lemma ErrorThresholdRule(v: HealthView, error: string)
    ensures AfterError(v, error).successCount == v.successCount
    ensures AfterError(v, error).lastSuccess == v.lastSuccess
    ensures Retryable(AfterError(v, error)) <==> v.errorCount + 1 < ErrorThreshold
  {
  }

  /** A run of errors adds its length to the error count and keeps the last message. */
  lemma {:induction false} ErrorsAccumulate(v: HealthView, errors: seq<string>)
    ensures AfterErrors(v, errors).errorCount == v.errorCount + |errors|
    ensures AfterErrors(v, errors).successCount == v.successCount
    ensures AfterErrors(v, errors).url == v.url
    ensures |errors| > 0 ==> !AfterErrors(v, errors).isHealthy
    ensures |errors| > 0 ==> AfterErrors(v, errors).lastError == Some(errors[|errors| - 1])
    decreases |errors|
  {
    if |errors| > 0 {
      ErrorsAccumulate(v, errors[..|errors| - 1]);
    }
  }

  /** Three or more errors with no success in between stop retries, from any starting record. */
  lemma ThreeErrorsStopRetries(v: HealthView, errors: seq<string>)
    requires |errors| >= ErrorThreshold
    ensures !Retryable(AfterErrors(v, errors))
  {
    ErrorsAccumulate(v, errors);
  }

  /** A fresh record survives two errors but not a third. */
  lemma FreshRecordTolerance(url: string, e1: string, e2: string, e3: string)
    ensures Retryable(AfterErrors(FreshView(url), [e1, e2]))
    ensures !Retryable(AfterErrors(FreshView(url), [e1, e2, e3]))
  {
    ErrorsAccumulate(FreshView(url), [e1, e2]);
    ThreeErrorsStopRetries(FreshView(url), [e1, e2, e3]);
  }

  /** With no retryable record there is no healthiest one, whatever the scores. */
  lemma NothingRetryableNoChoice(views: seq<HealthView>, score: HealthView -> int)
    requires forall j :: 0 <= j < |views| ==> views[j].errorCount >= ErrorThreshold && !views[j].isHealthy
    ensures Healthiest(views, score) == None
  {
  }
}
