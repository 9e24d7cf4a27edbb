/** Metric points as main.py builds them for Cloud Monitoring (create_time_series),
    and the batching of a point list into requests (send_metrics_batch). The
    monitoring client is a recorder of the requests it receives. */
module Metrics {
  import opened Text

  const MetricReporterReachability: String := "custom.googleapis.com/cassandra/reporter_node/reachability_status"
  const MetricNodeHealth: String := "custom.googleapis.com/cassandra/node/health_status"
  const MetricNodeOwnership: String := "custom.googleapis.com/cassandra/node/effective_ownership"
  const MetricNodeLoadBytes: String := "custom.googleapis.com/cassandra/node/load_bytes"
  const MetricNodeLoadPercentage: String := "custom.googleapis.com/cassandra/node/load_percentage_of_total"

  /** Points per request in send_metrics_batch. */
  const BatchSize: nat := 20

  /** A value handed to create_time_series: a Python int or a Python float. */
  datatype Number = IntNumber(i: int) | FloatNumber(x: real)

  /** The value of a point: set as int64, as double, or left unset when the
      value type is neither "INT64" nor "DOUBLE". */
  datatype PointValue = Int64Value(int64Value: int) | DoubleValue(doubleValue: real) | NoValue

  /** The `resource_labels` argument: the GCE instance a point is about. */
  datatype ResourceIdentity = ResourceIdentity(instanceId: String, zone: String)

  datatype MonitoredResource = MonitoredResource(resourceType: String, labels: map<String, String>)

  /** A time series with its single point (the point's timestamp is not modelled). */
  datatype TimeSeries = TimeSeries(
    metricType: String,
    metricLabels: map<String, String>,
    resource: MonitoredResource,
    value: PointValue)

  /** One create_time_series call of the client: the project name and the batch. */
  datatype Request = Request(name: String, timeSeries: seq<TimeSeries>)

  /** `f"projects/{PROJECT_ID}"` */
  function ProjectName(projectId: String): String {
    "projects/" + projectId
  }

  /** Python's `int(x)` on a float: truncation toward zero. */
  function TruncateToInt(x: real): (r: int)
    ensures 0.0 <= x ==> r as real <= x < r as real + 1.0
    ensures x < 0.0 ==> r as real - 1.0 < x <= r as real
  {
    if x >= 0.0 then x.Floor else -((-x).Floor)
  }

  /** `int(value)` */
  function PythonInt(v: Number): int {
    match v
    case IntNumber(i) => i
    case FloatNumber(x) => TruncateToInt(x)
  }

  /** `float(value)`, exact. */
  function PythonFloat(v: Number): real {
    match v
    case IntNumber(i) => i as real
    case FloatNumber(x) => x
  }

  /** The monitored resource of every point: the GCE instance, in the
      configured project. */
  function GceInstance(projectId: String, id: ResourceIdentity): MonitoredResource {
    MonitoredResource("gce_instance", map["project_id" := projectId, "instance_id" := id.instanceId, "zone" := id.zone])
  }

  /** create_time_series: metric type and labels as given, the GCE instance
      resource, and the value converted according to the value type. */
  function CreateTimeSeries(
    projectId: String, metricType: String, metricLabels: map<String, String>,
    resourceLabels: ResourceIdentity, value: Number, valueType: String): TimeSeries
  {
    var point :=
      if valueType == "INT64" then Int64Value(PythonInt(value))
      else if valueType == "DOUBLE" then DoubleValue(PythonFloat(value))
      else NoValue;
    TimeSeries(metricType, metricLabels, GceInstance(projectId, resourceLabels), point)
  }

  /** The point's value: an int is stored exactly as int64 and as double; a
      float stored as int64 loses its fraction toward zero; any other value
      type leaves the point unset. */
  lemma CreateTimeSeriesValue(
    projectId: String, metricType: String, metricLabels: map<String, String>,
    resourceLabels: ResourceIdentity, value: Number, valueType: String)
    ensures var ts := CreateTimeSeries(projectId, metricType, metricLabels, resourceLabels, value, valueType);
      && (ts.value.Int64Value? <==> valueType == "INT64")
      && (ts.value.DoubleValue? <==> valueType == "DOUBLE")
      && (ts.value.NoValue? <==> valueType != "INT64" && valueType != "DOUBLE")
      && (valueType == "INT64" && value.IntNumber? ==> ts.value.int64Value == value.i)
      && (valueType == "INT64" && value.FloatNumber? ==>
            var n := ts.value.int64Value as real;
            (0.0 <= value.x ==> 0.0 <= n <= value.x < n + 1.0)
            && (value.x < 0.0 ==> n - 1.0 < value.x <= n <= 0.0))
      && (valueType == "DOUBLE" && value.IntNumber? ==> ts.value.doubleValue == value.i as real)
      && (valueType == "DOUBLE" && value.FloatNumber? ==> ts.value.doubleValue == value.x)
  {
  }

  /** The point's identity: the given metric type and labels, a "gce_instance"
      resource with exactly the project, instance and zone labels. */
  lemma CreateTimeSeriesIdentity(
    projectId: String, metricType: String, metricLabels: map<String, String>,
    resourceLabels: ResourceIdentity, value: Number, valueType: String)
    ensures var ts := CreateTimeSeries(projectId, metricType, metricLabels, resourceLabels, value, valueType);
      && ts.metricType == metricType
      && ts.metricLabels == metricLabels
      && ts.resource.resourceType == "gce_instance"
      && ts.resource.labels.Keys == {"project_id", "instance_id", "zone"}
      && ts.resource.labels["project_id"] == projectId
      && ts.resource.labels["instance_id"] == resourceLabels.instanceId
      && ts.resource.labels["zone"] == resourceLabels.zone
  {
  }

  // ---------------------------------------------------------------------------
  // Batching

  /** The slices `s[i:i + n]` for i in `range(0, len(s), n)`. */
  function Chunks<T>(s: seq<T>, n: nat): seq<seq<T>>
    requires n > 0
    decreases |s|
  {
    if s == [] then []
    else if |s| <= n then [s]
    else [s[..n]] + Chunks(s[n..], n)
  }

  function Flatten<T>(ss: seq<seq<T>>): seq<T> {
    if ss == [] then [] else ss[0] + Flatten(ss[1..])
  }

  /** The batches, put back together, are the list. */
  lemma {:induction false} ChunksFlatten<T>(s: seq<T>, n: nat)
    requires n > 0
    ensures Flatten(Chunks(s, n)) == s
    decreases |s|
  {
    if s != [] && |s| > n {
      ChunksFlatten(s[n..], n);
      var c := Chunks(s, n);
      assert c[1..] == Chunks(s[n..], n);
      assert s == s[..n] + s[n..];
    } else if s != [] {
      assert Chunks(s, n)[1..] == [];
    }
  }

  /** Every batch is non-empty and at most n long, and all but the last are
      exactly n long. */
  predicate WellSized<T>(c: seq<seq<T>>, n: nat) {
    && (forall k :: 0 <= k < |c| ==> 0 < |c[k]| <= n)
    && (forall k :: 0 <= k < |c| - 1 ==> |c[k]| == n)
  }

  lemma {:induction false} ChunksSizes<T>(s: seq<T>, n: nat)
    requires n > 0
    ensures WellSized(Chunks(s, n), n)
    decreases |s|
  {
    if s != [] && |s| > n {
      ChunksSizes(s[n..], n);
      var c := Chunks(s, n);
      var rest := Chunks(s[n..], n);
      assert c == [s[..n]] + rest;
      assert forall k :: 1 <= k < |c| ==> c[k] == rest[k - 1];
    }
  }

  /** There are ceil(|s| / n) batches: the fewest whose total capacity
      holds the list. */
  lemma {:induction false} ChunksCount<T>(s: seq<T>, n: nat)
    requires n > 0
    ensures var m := |Chunks(s, n)|;
      (m - 1) * n < |s| <= m * n
    decreases |s|
  {
    if s != [] && |s| > n {
      ChunksCount(s[n..], n);
      var m' := |Chunks(s[n..], n)|;
      assert |Chunks(s, n)| == m' + 1;
      assert (m' + 1) * n == m' * n + n;
      assert (m' + 1 - 1) * n == (m' - 1) * n + n;
    }
  }

  /** One request per batch, all to the same project name. */
  function Requests(name: String, batches: seq<seq<TimeSeries>>): seq<Request> {
    if batches == [] then [] else [Request(name, batches[0])] + Requests(name, batches[1..])
  }

  lemma {:induction false} RequestsShape(name: String, batches: seq<seq<TimeSeries>>)
    ensures var r := Requests(name, batches);
      |r| == |batches| && forall k :: 0 <= k < |r| ==> r[k] == Request(name, batches[k])
    decreases |batches|
  {
    if batches != [] {
      RequestsShape(name, batches[1..]);
    }
  }

  /** The monitoring client, reduced to the requests it has been sent. The
      service's own failures are logged and ignored by the caller, so every
      call is recorded. */
  class MetricClient {
    var requests: seq<Request>

    constructor ()
      ensures requests == []
    {
      requests := [];
    }

    /** `METRIC_CLIENT.create_time_series(name=…, time_series=…)` */
    method CreateTimeSeries(name: String, timeSeries: seq<TimeSeries>)
      modifies this
      ensures requests == old(requests) + [Request(name, timeSeries)]
    {
      requests := requests + [Request(name, timeSeries)];
    }
  }

  function Min(a: int, b: int): int {
    if a <= b then a else b
  }

  /** send_metrics_batch: nothing for an empty list, otherwise one request per
      consecutive slice of at most BatchSize points. */
  method SendMetricsBatch(client: MetricClient, projectName: String, timeSeriesList: seq<TimeSeries>)
    modifies client
    ensures client.requests == old(client.requests) + Requests(projectName, Chunks(timeSeriesList, BatchSize))
  {
    if timeSeriesList == [] {
      return;
    }
    var i := 0;
    while i < |timeSeriesList|
      invariant 0 <= i
      invariant old(client.requests) + Requests(projectName, Chunks(timeSeriesList, BatchSize))
        == client.requests + Requests(projectName, Chunks(timeSeriesList[Min(i, |timeSeriesList|)..], BatchSize))
      decreases |timeSeriesList| - i
    {
      var batch := timeSeriesList[i..Min(i + BatchSize, |timeSeriesList|)];
      ghost var rest := Chunks(timeSeriesList[i..], BatchSize);
      assert rest[0] == batch;
      assert rest[1..] == Chunks(timeSeriesList[Min(i + BatchSize, |timeSeriesList|)..], BatchSize);
      client.CreateTimeSeries(projectName, batch);
      i := i + BatchSize;
    }
  }
}
