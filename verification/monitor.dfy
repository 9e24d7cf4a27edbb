/** One monitoring run (main in main.py): for every configured node, run
    `nodetool ring` on it through IAP, report whether that worked as a
    reachability point sent at once, and turn the parsed ring into four
    points per observed node, sent in batches at the end. The remote command
    and the ping are inputs: functions from their arguments to their outcome. */
module Monitor {
  import opened Wrappers
  import opened Text
  import opened RingParser
  import opened Metrics

  /** One entry of CASSANDRA_NODES: an instance's settings merged with the
      common ones. */
  datatype NodeConfig = NodeConfig(
    instanceName: String,
    instanceId: String,
    ip: String,
    zone: String,
    sshUser: String,
    nodetoolPath: String)

  datatype Timeouts = Timeouts(sshConnectTimeoutSec: int, commandTimeoutSec: int)

  /** The arguments of one execute_command_via_iap call. */
  datatype IapRequest = IapRequest(
    projectId: String,
    zone: String,
    instanceName: String,
    sshUser: String,
    command: String,
    sshConnectTimeoutSec: int,
    commandTimeoutSec: int)

  /** What execute_command_via_iap returns: the command's standard output, or
      no output and an error message. */
  datatype ExecResult = ExecResult(output: Option<String>, error: Option<String>)

  /** `f"{node_config['nodetool_path']} ring"` */
  function NodetoolCommand(node: NodeConfig): String {
    node.nodetoolPath + " ring"
  }

  function IapRequestFor(projectId: String, timeouts: Timeouts, node: NodeConfig): IapRequest {
    IapRequest(projectId, node.zone, node.instanceName, node.sshUser, NodetoolCommand(node),
      timeouts.sshConnectTimeoutSec, timeouts.commandTimeoutSec)
  }

  /** The node whose ring view is parsed, as the parser sees it. */
  function ReporterOf(node: NodeConfig): Reporter {
    Reporter(node.ip, node.instanceId, node.zone)
  }

  /** `{"instance_id": …, "zone": …}` of a node. */
  function ResourceOf(node: NodeConfig): ResourceIdentity {
    ResourceIdentity(node.instanceId, node.zone)
  }

  // ---------------------------------------------------------------------------
  // Reachability

  function ReachabilityLabels(target: NodeConfig, failureReason: String): map<String, String> {
    map[
      "target_cassandra_node_ip" := target.ip,
      "target_cassandra_instance_name" := target.instanceName,
      "failure_reason" := if failureReason != [] then failureReason else "success"]
  }

  /** The one point report_node_reachability builds. */
  function ReachabilitySeries(projectId: String, target: NodeConfig, reachableStatus: int, failureReason: String): TimeSeries {
    CreateTimeSeries(projectId, MetricReporterReachability, ReachabilityLabels(target, failureReason),
      ResourceOf(target), IntNumber(reachableStatus), "INT64")
  }

  /** A reachability point is an INT64 point of the reachability metric about
      the target node itself, with the target's ip and name and a failure
      reason that is "success" when none is given. */
  lemma ReachabilitySeriesMeaning(projectId: String, target: NodeConfig, reachableStatus: int, failureReason: String)
    ensures var ts := ReachabilitySeries(projectId, target, reachableStatus, failureReason);
      && ts.metricType == MetricReporterReachability
      && ts.value == Int64Value(reachableStatus)
      && ts.resource == GceInstance(projectId, ResourceIdentity(target.instanceId, target.zone))
      && ts.metricLabels.Keys == {"target_cassandra_node_ip", "target_cassandra_instance_name", "failure_reason"}
      && ts.metricLabels["target_cassandra_node_ip"] == target.ip
      && ts.metricLabels["target_cassandra_instance_name"] == target.instanceName
      && (failureReason == [] ==> ts.metricLabels["failure_reason"] == "success")
      && (failureReason != [] ==> ts.metricLabels["failure_reason"] == failureReason)
  {
  }

  /** report_node_reachability: the point is sent on its own, in one request. */
  method ReportNodeReachability(client: MetricClient, projectId: String, target: NodeConfig, reachableStatus: int, failureReason: String)
    modifies client
    ensures client.requests == old(client.requests)
      + [Request(ProjectName(projectId), [ReachabilitySeries(projectId, target, reachableStatus, failureReason)])]
  {
    var tsList := [ReachabilitySeries(projectId, target, reachableStatus, failureReason)];
    SendMetricsBatch(client, ProjectName(projectId), tsList);
    assert Requests(ProjectName(projectId), [tsList])[1..] == [];
  }

  /** The failure reason of a node whose command failed. */
  function FailureDetail(cmdError: Option<String>, isPingable: bool): String {
    if !isPingable then "ping_failed"
    else if cmdError.Some? && cmdError.value != [] then cmdError.value
    else "unknown_iap_ssh_error"
  }

  /** A failed ping always wins; otherwise the command's error is the reason
      when there is one, and a fixed text when there is not. The reason is
      never empty, so it is what the point's failure_reason label carries. */
  lemma FailureDetailMeaning(cmdError: Option<String>, isPingable: bool)
    ensures var d := FailureDetail(cmdError, isPingable);
      && d != []
      && (!isPingable ==> d == "ping_failed")
      && (isPingable ==> (d == "unknown_iap_ssh_error" <==> cmdError.None? || cmdError.value == [] || cmdError.value == "unknown_iap_ssh_error"))
      && (isPingable && cmdError.Some? && cmdError.value != [] ==> d == cmdError.value)
  {
  }

  // ---------------------------------------------------------------------------
  // Observation points

  /** The six labels shared by the four points of an observed node. */
  function ObservationLabels(observed: ObservedNode): map<String, String> {
    map[
      "reporter_cassandra_node_ip" := observed.reporterNodeIp,
      "observed_node_address" := observed.address,
      "observed_node_datacenter" := observed.datacenter,
      "observed_node_rack" := observed.rack,
      "observed_node_actual_status" := observed.status,
      "observed_node_actual_state" := observed.state]
  }

  /** The four points of one observed node, in the order main appends them. */
  function ObservationSeries(projectId: String, resource: ResourceIdentity, observed: ObservedNode): seq<TimeSeries> {
    var labels := ObservationLabels(observed);
    [ CreateTimeSeries(projectId, MetricNodeHealth, labels, resource, IntNumber(observed.healthValue), "INT64"),
      CreateTimeSeries(projectId, MetricNodeOwnership, labels, resource, FloatNumber(observed.effectiveOwnership), "DOUBLE"),
      CreateTimeSeries(projectId, MetricNodeLoadBytes, labels, resource, IntNumber(observed.loadBytes), "INT64"),
      CreateTimeSeries(projectId, MetricNodeLoadPercentage, labels, resource, FloatNumber(observed.loadPercentageOfTotal), "DOUBLE") ]
  }

  /** The metric of the k-th point of an observed node. */
  function ObservationMetric(k: nat): String
    requires k < 4
  {
    [MetricNodeHealth, MetricNodeOwnership, MetricNodeLoadBytes, MetricNodeLoadPercentage][k]
  }

  /** The values of an observed node's four points, in the same order: its
      health and load in bytes as integers, its ownership and load share as
      reals. */
  function ObservedValues(observed: ObservedNode): seq<PointValue> {
    [ Int64Value(observed.healthValue), DoubleValue(observed.effectiveOwnership),
      Int64Value(observed.loadBytes), DoubleValue(observed.loadPercentageOfTotal) ]
  }

  /** The observation metrics are not the reachability metric (they part
      after "custom.googleapis.com/cassandra/"). */
  lemma ObservationMetricIsNotReachability(k: nat)
    requires k < 4
    ensures ObservationMetric(k) != MetricReporterReachability
  {
    assert MetricReporterReachability[32] == 'r';
    assert ObservationMetric(k)[32] == 'n';
  }

  /** The points of all records of one ring view, record after record. */
  function ObservationsOf(projectId: String, resource: ResourceIdentity, records: seq<ObservedNode>): seq<TimeSeries> {
    if records == [] then []
    else
      ObservationsOf(projectId, resource, records[..|records| - 1])
      + ObservationSeries(projectId, resource, records[|records| - 1])
  }

  /** Four points per record, in record order: point 4i + k is the k-th
      point of record i. */
  lemma {:induction false} ObservationsOfShape(projectId: String, resource: ResourceIdentity, records: seq<ObservedNode>)
    ensures var r := ObservationsOf(projectId, resource, records);
      && |r| == 4 * |records|
      && (forall k :: 0 <= k < |r| ==> r[k] == ObservationSeries(projectId, resource, records[k / 4])[k % 4])
    decreases |records|
  {
    if records != [] {
      var init := records[..|records| - 1];
      var last := records[|records| - 1];
      ObservationsOfShape(projectId, resource, init);
      var prev := ObservationsOf(projectId, resource, init);
      var four := ObservationSeries(projectId, resource, last);
      var r := prev + four;
      forall k | 0 <= k < |r| ensures r[k] == ObservationSeries(projectId, resource, records[k / 4])[k % 4] {
        if k < |prev| {
          assert records[k / 4] == init[k / 4];
        } else {
          assert k / 4 == |init| && k % 4 == k - |prev|;
        }
      }
    }
  }

  /** The k-th point of a record: the k-th metric (health as INT64,
      ownership as DOUBLE, load bytes as INT64, load share as DOUBLE) with the
      record's own value for it, the record's six labels and the reporter's
      resource. */
  lemma ObservationSeriesPoint(projectId: String, resource: ResourceIdentity, observed: ObservedNode, k: nat)
    requires k < 4
    ensures var ts := ObservationSeries(projectId, resource, observed)[k];
      && ts.metricType == ObservationMetric(k)
      && ts.metricLabels == ObservationLabels(observed)
      && ts.resource == GceInstance(projectId, resource)
      && (ts.value.Int64Value? <==> k == 0 || k == 2)
      && (ts.value.DoubleValue? <==> k == 1 || k == 3)
      && ts.value == ObservedValues(observed)[k]
  {
  }

  /** Every point of a ring view: point k has the (k % 4)-th metric, its
      value kind and the matching value of record k / 4, the labels of record
      k / 4, and the reporter's resource. */
  lemma ObservationsOfPoints(projectId: String, resource: ResourceIdentity, records: seq<ObservedNode>)
    ensures var r := ObservationsOf(projectId, resource, records);
      && |r| == 4 * |records|
      && (forall k :: 0 <= k < |r| ==> r[k].metricType == ObservationMetric(k % 4))
      && (forall k :: 0 <= k < |r| ==> r[k].metricLabels == ObservationLabels(records[k / 4]))
      && (forall k :: 0 <= k < |r| ==> r[k].resource == GceInstance(projectId, resource))
      && (forall k :: 0 <= k < |r| ==> (r[k].value.Int64Value? <==> k % 4 == 0 || k % 4 == 2))
      && (forall k :: 0 <= k < |r| ==> (r[k].value.DoubleValue? <==> k % 4 == 1 || k % 4 == 3))
      && (forall k :: 0 <= k < |r| ==> r[k].value == ObservedValues(records[k / 4])[k % 4])
  {
    ObservationsOfShape(projectId, resource, records);
    var r := ObservationsOf(projectId, resource, records);
    forall k | 0 <= k < |r|
      ensures r[k].metricType == ObservationMetric(k % 4)
      ensures r[k].metricLabels == ObservationLabels(records[k / 4])
      ensures r[k].resource == GceInstance(projectId, resource)
      ensures r[k].value.Int64Value? <==> k % 4 == 0 || k % 4 == 2
      ensures r[k].value.DoubleValue? <==> k % 4 == 1 || k % 4 == 3
      ensures r[k].value == ObservedValues(records[k / 4])[k % 4]
    {
      ObservationSeriesPoint(projectId, resource, records[k / 4], k % 4);
    }
  }

  // ---------------------------------------------------------------------------
  // The per-node loop

  /** What one node contributes: its reachability point, and the points of
      its ring view (none when the command failed). */
  datatype NodeOutcome = NodeOutcome(reachability: TimeSeries, observations: seq<TimeSeries>)

  function ProcessNode(
    projectId: String, timeouts: Timeouts, node: NodeConfig,
    execute: IapRequest -> ExecResult, ping: String -> bool): NodeOutcome
  {
    var result := execute(IapRequestFor(projectId, timeouts, node));
    match result.output
    case None =>
      NodeOutcome(ReachabilitySeries(projectId, node, 0, FailureDetail(result.error, ping(node.ip))), [])
    case Some(ringOutput) =>
      NodeOutcome(ReachabilitySeries(projectId, node, 1, "success"),
        ObservationsOf(projectId, ResourceOf(node), ParseRing(ringOutput, ReporterOf(node))))
  }

  /** A node whose command failed is reported unreachable (0) with the failure
      detail, and contributes no observation. */
  lemma ProcessNodeFailure(
    projectId: String, timeouts: Timeouts, node: NodeConfig,
    execute: IapRequest -> ExecResult, ping: String -> bool)
    requires execute(IapRequestFor(projectId, timeouts, node)).output.None?
    ensures var o := ProcessNode(projectId, timeouts, node, execute, ping);
      var err := execute(IapRequestFor(projectId, timeouts, node)).error;
      && o.reachability.value == Int64Value(0)
      && o.reachability.metricLabels["failure_reason"] == FailureDetail(err, ping(node.ip))
      && o.observations == []
  {
    FailureDetailMeaning(execute(IapRequestFor(projectId, timeouts, node)).error, ping(node.ip));
  }

  /** A node whose command succeeded is reported reachable (1) with reason
      "success", and contributes four points per parsed record, each labelled
      with this node's ip as reporter and placed on this node's resource. */
  lemma ProcessNodeSuccess(
    projectId: String, timeouts: Timeouts, node: NodeConfig,
    execute: IapRequest -> ExecResult, ping: String -> bool)
    requires execute(IapRequestFor(projectId, timeouts, node)).output.Some?
    ensures var o := ProcessNode(projectId, timeouts, node, execute, ping);
      var records := ParseRing(execute(IapRequestFor(projectId, timeouts, node)).output.value, ReporterOf(node));
      && o.reachability.value == Int64Value(1)
      && o.reachability.metricLabels["failure_reason"] == "success"
      && |o.observations| == 4 * |records|
      && (forall k :: 0 <= k < |o.observations| ==>
            && "reporter_cassandra_node_ip" in o.observations[k].metricLabels
            && o.observations[k].metricLabels["reporter_cassandra_node_ip"] == node.ip)
      && (forall k :: 0 <= k < |o.observations| ==>
            o.observations[k].resource == GceInstance(projectId, ResourceIdentity(node.instanceId, node.zone)))
  {
    var ringOutput := execute(IapRequestFor(projectId, timeouts, node)).output.value;
    var records := ParseRing(ringOutput, ReporterOf(node));
    ParseRingReportedBy(ringOutput, ReporterOf(node));
    ObservationsOfPoints(projectId, ResourceOf(node), records);
    var r := ObservationsOf(projectId, ResourceOf(node), records);
    forall k | 0 <= k < |r| ensures r[k].metricLabels["reporter_cassandra_node_ip"] == node.ip {
      assert ReportedBy(records[k / 4], ReporterOf(node));
    }
  }

  /** What each configured node contributes, in configuration order. */
  function Outcomes(
    projectId: String, timeouts: Timeouts, nodes: seq<NodeConfig>,
    execute: IapRequest -> ExecResult, ping: String -> bool): seq<NodeOutcome>
  {
    seq(|nodes|, k requires 0 <= k < |nodes| => ProcessNode(projectId, timeouts, nodes[k], execute, ping))
  }

  /** The requests sent while going through the nodes: one per node, holding
      just that node's reachability point. */
  function ReachabilityRequests(name: String, outcomes: seq<NodeOutcome>): seq<Request> {
    if outcomes == [] then []
    else ReachabilityRequests(name, outcomes[..|outcomes| - 1]) + [Request(name, [outcomes[|outcomes| - 1].reachability])]
  }

  /** The points collected over the nodes, node after node. */
  function AllObservations(outcomes: seq<NodeOutcome>): seq<TimeSeries> {
    if outcomes == [] then []
    else AllObservations(outcomes[..|outcomes| - 1]) + outcomes[|outcomes| - 1].observations
  }

  /** Going one node further adds that node's request and points. */
  lemma OutcomesStep(name: String, outcomes: seq<NodeOutcome>, i: nat)
    requires i < |outcomes|
    ensures ReachabilityRequests(name, outcomes[..i + 1])
      == ReachabilityRequests(name, outcomes[..i]) + [Request(name, [outcomes[i].reachability])]
    ensures AllObservations(outcomes[..i + 1]) == AllObservations(outcomes[..i]) + outcomes[i].observations
  {
    assert outcomes[..i + 1][..i] == outcomes[..i];
  }

  /** Everything one run sends, in order: the reachability requests, then the
      collected points in batches. */
  function RunRequests(name: String, outcomes: seq<NodeOutcome>): seq<Request> {
    ReachabilityRequests(name, outcomes) + Requests(name, Chunks(AllObservations(outcomes), BatchSize))
  }

  /** Exactly one reachability request per node, in configuration order,
      each carrying that node's point alone. */
  lemma {:induction false} ReachabilityRequestsShape(name: String, outcomes: seq<NodeOutcome>)
    ensures var r := ReachabilityRequests(name, outcomes);
      && |r| == |outcomes|
      && forall k :: 0 <= k < |r| ==> r[k] == Request(name, [outcomes[k].reachability])
    decreases |outcomes|
  {
    if outcomes != [] {
      var init := outcomes[..|outcomes| - 1];
      ReachabilityRequestsShape(name, init);
      var r := ReachabilityRequests(name, outcomes);
      forall k | 0 <= k < |r| ensures r[k] == Request(name, [outcomes[k].reachability]) {
        if k < |init| {
          assert outcomes[k] == init[k];
        }
      }
    }
  }

  /** None of the points is a reachability point. */
  predicate NoReachabilityPoint(points: seq<TimeSeries>) {
    forall k :: 0 <= k < |points| ==> points[k].metricType != MetricReporterReachability
  }

  lemma NoReachabilityPointConcat(a: seq<TimeSeries>, b: seq<TimeSeries>)
    requires NoReachabilityPoint(a) && NoReachabilityPoint(b)
    ensures NoReachabilityPoint(a + b)
  {
    forall k | 0 <= k < |a + b| ensures (a + b)[k].metricType != MetricReporterReachability {
      if k >= |a| {
        assert (a + b)[k] == b[k - |a|];
      }
    }
  }

  /** No point of a ring view is a reachability point. */
  lemma ObservationsAreNotReachability(projectId: String, resource: ResourceIdentity, records: seq<ObservedNode>)
    ensures NoReachabilityPoint(ObservationsOf(projectId, resource, records))
  {
    ObservationsOfPoints(projectId, resource, records);
    var added := ObservationsOf(projectId, resource, records);
    forall k | 0 <= k < |added| ensures added[k].metricType != MetricReporterReachability {
      ObservationMetricIsNotReachability(k % 4);
    }
  }

  /** No point a node contributes is a reachability point. */
  lemma NodeObservationsAreNotReachability(
    projectId: String, timeouts: Timeouts, node: NodeConfig,
    execute: IapRequest -> ExecResult, ping: String -> bool)
    ensures NoReachabilityPoint(ProcessNode(projectId, timeouts, node, execute, ping).observations)
  {
    var result := execute(IapRequestFor(projectId, timeouts, node));
    if result.output.Some? {
      ObservationsAreNotReachability(projectId, ResourceOf(node), ParseRing(result.output.value, ReporterOf(node)));
    }
  }

  /** Collecting points that hold no reachability point yields none. */
  lemma {:induction false} NoReachabilityInObservations(outcomes: seq<NodeOutcome>)
    requires forall k :: 0 <= k < |outcomes| ==> NoReachabilityPoint(outcomes[k].observations)
    ensures NoReachabilityPoint(AllObservations(outcomes))
    decreases |outcomes|
  {
    if outcomes != [] {
      var init := outcomes[..|outcomes| - 1];
      assert forall k :: 0 <= k < |init| ==> init[k] == outcomes[k];
      NoReachabilityInObservations(init);
      NoReachabilityPointConcat(AllObservations(init), outcomes[|outcomes| - 1].observations);
    }
  }

  /** The requests after a given prefix are the batches, in order. */
  lemma RequestsAfter(name: String, head: seq<Request>, batches: seq<seq<TimeSeries>>)
    requires forall k :: 0 <= k < |head| ==> head[k].name == name
    ensures var all := head + Requests(name, batches);
      && |all| == |head| + |batches|
      && (forall k :: 0 <= k < |head| ==> all[k] == head[k])
      && (forall k :: |head| <= k < |all| ==> all[k].timeSeries == batches[k - |head|])
      && (forall k :: 0 <= k < |all| ==> all[k].name == name)
  {
    RequestsShape(name, batches);
  }

  /** What a run sends: one single-point reachability request per node, in
      order, and then batches of at most BatchSize points, all full but the
      last, that put together are the collected points. */
  lemma RunRequestsShape(name: String, outcomes: seq<NodeOutcome>)
    ensures var all := RunRequests(name, outcomes);
      var obs := AllObservations(outcomes);
      var batches := Chunks(obs, BatchSize);
      && |all| == |outcomes| + |batches|
      && (forall k :: 0 <= k < |outcomes| ==> all[k].timeSeries == [outcomes[k].reachability])
      && (forall k :: |outcomes| <= k < |all| ==> all[k].timeSeries == batches[k - |outcomes|])
      && (forall k :: 0 <= k < |all| ==> all[k].name == name)
      && Flatten(batches) == obs
      && WellSized(batches, BatchSize)
  {
    var obs := AllObservations(outcomes);
    var batches := Chunks(obs, BatchSize);
    var head := ReachabilityRequests(name, outcomes);
    ReachabilityRequestsShape(name, outcomes);
    RequestsAfter(name, head, batches);
    ChunksFlatten(obs, BatchSize);
    ChunksSizes(obs, BatchSize);
  }

  /** The k-th outcome of a run is about the k-th configured node: a
      reachability point on that node's resource, labelled with its ip, that
      is 1 exactly when the node's command produced output and 0 otherwise. */
  lemma OutcomesOfNodes(
    projectId: String, timeouts: Timeouts, nodes: seq<NodeConfig>,
    execute: IapRequest -> ExecResult, ping: String -> bool)
    ensures var outcomes := Outcomes(projectId, timeouts, nodes, execute, ping);
      && |outcomes| == |nodes|
      && forall k :: 0 <= k < |nodes| ==> OutcomeIsAbout(outcomes[k], projectId, timeouts, nodes[k], execute)
  {
    var outcomes := Outcomes(projectId, timeouts, nodes, execute, ping);
    forall k | 0 <= k < |nodes| ensures OutcomeIsAbout(outcomes[k], projectId, timeouts, nodes[k], execute) {
      var node := nodes[k];
      assert outcomes[k] == ProcessNode(projectId, timeouts, node, execute, ping);
      var result := execute(IapRequestFor(projectId, timeouts, node));
      if result.output.Some? {
        ReachabilitySeriesMeaning(projectId, node, 1, "success");
      } else {
        ReachabilitySeriesMeaning(projectId, node, 0, FailureDetail(result.error, ping(node.ip)));
      }
    }
  }

  predicate OutcomeIsAbout(
    outcome: NodeOutcome, projectId: String, timeouts: Timeouts, node: NodeConfig,
    execute: IapRequest -> ExecResult)
  {
    var ts := outcome.reachability;
    && ts.metricType == MetricReporterReachability
    && ts.resource == GceInstance(projectId, ResourceOf(node))
    && "target_cassandra_node_ip" in ts.metricLabels
    && ts.metricLabels["target_cassandra_node_ip"] == node.ip
    && (ts.value == Int64Value(1) <==> execute(IapRequestFor(projectId, timeouts, node)).output.Some?)
    && (ts.value == Int64Value(0) <==> execute(IapRequestFor(projectId, timeouts, node)).output.None?)
  }

  /** The batched points of a run hold no reachability point: reachability
      only ever goes out in the per-node requests. */
  lemma RunObservationsAreNotReachability(
    projectId: String, timeouts: Timeouts, nodes: seq<NodeConfig>,
    execute: IapRequest -> ExecResult, ping: String -> bool)
    ensures NoReachabilityPoint(AllObservations(Outcomes(projectId, timeouts, nodes, execute, ping)))
  {
    var outcomes := Outcomes(projectId, timeouts, nodes, execute, ping);
    forall k | 0 <= k < |outcomes| ensures NoReachabilityPoint(outcomes[k].observations) {
      NodeObservationsAreNotReachability(projectId, timeouts, nodes[k], execute, ping);
    }
    NoReachabilityInObservations(outcomes);
  }

  /** The inner loop of main over the parsed records: four points appended
      per record. */
  method AppendObservations(
    allTimeSeries: seq<TimeSeries>, projectId: String, reporterResource: ResourceIdentity,
    parsedRingData: seq<ObservedNode>)
    returns (extended: seq<TimeSeries>)
    ensures extended == allTimeSeries + ObservationsOf(projectId, reporterResource, parsedRingData)
  {
    extended := allTimeSeries;
    for j := 0 to |parsedRingData|
      invariant extended == allTimeSeries + ObservationsOf(projectId, reporterResource, parsedRingData[..j])
    {
      assert parsedRingData[..j + 1][..j] == parsedRingData[..j];
      var observedNode := parsedRingData[j];
      var nodeMetricLabels := ObservationLabels(observedNode);
      extended := extended + [CreateTimeSeries(projectId, MetricNodeHealth,
        nodeMetricLabels, reporterResource, IntNumber(observedNode.healthValue), "INT64")];
      extended := extended + [CreateTimeSeries(projectId, MetricNodeOwnership,
        nodeMetricLabels, reporterResource, FloatNumber(observedNode.effectiveOwnership), "DOUBLE")];
      extended := extended + [CreateTimeSeries(projectId, MetricNodeLoadBytes,
        nodeMetricLabels, reporterResource, IntNumber(observedNode.loadBytes), "INT64")];
      extended := extended + [CreateTimeSeries(projectId, MetricNodeLoadPercentage,
        nodeMetricLabels, reporterResource, FloatNumber(observedNode.loadPercentageOfTotal), "DOUBLE")];
    }
    assert parsedRingData[..|parsedRingData|] == parsedRingData;
  }

  /** The body of main's loop for one node: run the command, report the
      node's reachability at once, and give back the node's points. */
  method ProcessReporterNode(
    client: MetricClient, projectId: String, timeouts: Timeouts, nodeConfig: NodeConfig,
    execute: IapRequest -> ExecResult, ping: String -> bool)
    returns (observations: seq<TimeSeries>)
    modifies client
    ensures var outcome := ProcessNode(projectId, timeouts, nodeConfig, execute, ping);
      && client.requests == old(client.requests) + [Request(ProjectName(projectId), [outcome.reachability])]
      && observations == outcome.observations
  {
    var reporterResource := ResourceOf(nodeConfig);
    var result := execute(IapRequestFor(projectId, timeouts, nodeConfig));
    if result.output.None? {
      var isPingable := ping(nodeConfig.ip);
      var failureDetail := if result.error.Some? && result.error.value != [] then result.error.value else "unknown_iap_ssh_error";
      if !isPingable {
        failureDetail := "ping_failed";
      }
      assert failureDetail == FailureDetail(result.error, isPingable);
      ReportNodeReachability(client, projectId, nodeConfig, 0, failureDetail);
      return [];
    }
    ReportNodeReachability(client, projectId, nodeConfig, 1, "success");
    var parsedRingData := ParseNodetoolRingOutput(result.output.value, ReporterOf(nodeConfig));
    if parsedRingData == [] {
      return [];
    }
    observations := AppendObservations([], projectId, reporterResource, parsedRingData);
  }

  /** main's loop over CASSANDRA_NODES, then the final send of the collected
      points. */
  method Run(
    client: MetricClient, projectId: String, timeouts: Timeouts, nodes: seq<NodeConfig>,
    execute: IapRequest -> ExecResult, ping: String -> bool)
    modifies client
    ensures client.requests == old(client.requests)
      + RunRequests(ProjectName(projectId), Outcomes(projectId, timeouts, nodes, execute, ping))
  {
    ghost var outcomes := Outcomes(projectId, timeouts, nodes, execute, ping);
    ghost var start := client.requests;
    var allTimeSeriesToSend: seq<TimeSeries> := [];
    for i := 0 to |nodes|
      invariant client.requests == start + ReachabilityRequests(ProjectName(projectId), outcomes[..i])
      invariant allTimeSeriesToSend == AllObservations(outcomes[..i])
    {
      OutcomesStep(ProjectName(projectId), outcomes, i);
      assert outcomes[i] == ProcessNode(projectId, timeouts, nodes[i], execute, ping);
      var observations := ProcessReporterNode(client, projectId, timeouts, nodes[i], execute, ping);
      allTimeSeriesToSend := allTimeSeriesToSend + observations;
    }
    assert outcomes[..|nodes|] == outcomes;
    ghost var sent := client.requests;
    if allTimeSeriesToSend != [] {
      SendMetricsBatch(client, ProjectName(projectId), allTimeSeriesToSend);
    } else {
      assert Requests(ProjectName(projectId), Chunks(allTimeSeriesToSend, BatchSize)) == [];
    }
    ghost var batches := Requests(ProjectName(projectId), Chunks(allTimeSeriesToSend, BatchSize));
    assert client.requests == sent + batches;
    assert RunRequests(ProjectName(projectId), outcomes) == ReachabilityRequests(ProjectName(projectId), outcomes) + batches;
    AppendAssociative(start, ReachabilityRequests(ProjectName(projectId), outcomes), batches);
  }

  /** A node whose command fails and which does not answer ping: one request,
      holding its reachability point with value 0 and reason "ping_failed",
      and nothing else. */
  lemma UnreachableNodeScenario(
    projectId: String, timeouts: Timeouts, node: NodeConfig,
    execute: IapRequest -> ExecResult, ping: String -> bool)
    requires execute(IapRequestFor(projectId, timeouts, node)).output.None?
    requires !ping(node.ip)
    ensures RunRequests(ProjectName(projectId), Outcomes(projectId, timeouts, [node], execute, ping))
      == [Request(ProjectName(projectId), [ReachabilitySeries(projectId, node, 0, "ping_failed")])]
  {
    var outcome := ProcessNode(projectId, timeouts, node, execute, ping);
    var outcomes := Outcomes(projectId, timeouts, [node], execute, ping);
    assert outcomes == [outcome] && outcomes[..0] == [];
    assert outcome.observations == [];
    assert AllObservations(outcomes) == [];
    assert Chunks<TimeSeries>([], BatchSize) == [];
    assert ReachabilityRequests(ProjectName(projectId), outcomes) == [Request(ProjectName(projectId), [outcome.reachability])];
  }

  /** A node whose command fails with an error but which answers ping is
      reported with the command's error as the reason. */
  lemma FailingCommandScenario(
    projectId: String, timeouts: Timeouts, node: NodeConfig,
    execute: IapRequest -> ExecResult, ping: String -> bool, error: String)
    requires execute(IapRequestFor(projectId, timeouts, node)) == ExecResult(None, Some(error))
    requires error != [] && ping(node.ip)
    ensures RunRequests(ProjectName(projectId), Outcomes(projectId, timeouts, [node], execute, ping))
      == [Request(ProjectName(projectId), [ReachabilitySeries(projectId, node, 0, error)])]
  {
    var outcome := ProcessNode(projectId, timeouts, node, execute, ping);
    var outcomes := Outcomes(projectId, timeouts, [node], execute, ping);
    assert outcomes == [outcome] && outcomes[..0] == [];
    assert outcome.observations == [];
    assert AllObservations(outcomes) == [];
    assert Chunks<TimeSeries>([], BatchSize) == [];
    assert ReachabilityRequests(ProjectName(projectId), outcomes) == [Request(ProjectName(projectId), [outcome.reachability])];
  }

  /** A node whose command succeeds with empty output is reachable but
      contributes no point, so the run sends only its reachability point. */
  lemma EmptyOutputScenario(
    projectId: String, timeouts: Timeouts, node: NodeConfig,
    execute: IapRequest -> ExecResult, ping: String -> bool)
    requires execute(IapRequestFor(projectId, timeouts, node)).output == Some("")
    ensures RunRequests(ProjectName(projectId), Outcomes(projectId, timeouts, [node], execute, ping))
      == [Request(ProjectName(projectId), [ReachabilitySeries(projectId, node, 1, "success")])]
  {
    assert Strip("") == "";
    assert RingLines("") == [];
    assert ParseRing("", ReporterOf(node)) == [];
    var outcome := ProcessNode(projectId, timeouts, node, execute, ping);
    var outcomes := Outcomes(projectId, timeouts, [node], execute, ping);
    assert outcomes == [outcome] && outcomes[..0] == [];
    assert outcome.observations == [];
    assert AllObservations(outcomes) == [];
    assert Chunks<TimeSeries>([], BatchSize) == [];
    assert ReachabilityRequests(ProjectName(projectId), outcomes) == [Request(ProjectName(projectId), [outcome.reachability])];
  }
}
