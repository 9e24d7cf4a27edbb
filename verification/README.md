# Cassandra ring monitor, modelled in Dafny

The monitor runs `nodetool ring` on every configured Cassandra node over IAP SSH. It reports to Cloud Monitoring whether each node could be reached. Then it turns each node's view of the ring into four metric points per observed node: health, effective ownership, load in bytes, and share of the total load.

This project models, in `google-cloud-cassandra-monitor-status/main.py`:

- the checks `load_config` makes on the parsed configuration document;
- the merge that builds `CASSANDRA_NODES`;
- `parse_nodetool_ring_output`;
- `create_time_series`;
- `send_metrics_batch`;
- `report_node_reachability`;
- the per-node loop of `main`.

Files:

- `wrappers.dfy`: `Option`.
- `text.dfy` (module `Text`):
  - the string operations the parser relies on: `str.isspace`, `strip`, `splitlines`, whitespace tokenisation, substring search, ASCII `lower`/`upper`;
  - their properties.
- `numbers.dfy` (module `Numbers`):
  - decimal literals read exactly;
  - the load conversion `int(val * 1024**k)`.
- `ring_parser.dfy` (module `RingParser`):
  - the node-line pattern, read over the tokens of the stripped line;
  - the header-skipping loop, as a fold over the lines;
  - the records;
  - the load-percentage pass;
  - the methods `ParseNodetoolRingOutput` and `AddLoadPercentages`, which carry the source's loops.
- `metrics.dfy` (module `Metrics`):
  - metric points, with `create_time_series`;
  - the split into batches of 20;
  - `MetricClient`, a class that records the requests it receives;
  - `SendMetricsBatch`, which loops over the slices.
- `monitor.dfy` (module `Monitor`):
  - the reachability point;
  - the failure detail;
  - the four points per observed node;
  - a node's outcome as a function of the remote command's result and the ping;
  - the method `Run`, the loop of `main`, proved equal to `RunRequests`: one reachability request per node, in order, then the collected points in batches of 20.
- `config.dfy` (module `Config`):
  - each validation step as a function returning a verdict: accepted, rejected with the `ValueError`, or crashed with another exception;
  - the if-and-only-if characterisation of what is accepted;
  - the settings merge.

How the model stands in for the real system:

- **The remote command and the ping** (`execute_command_via_iap`, `ping_check`) are parameters of the run: functions from their arguments to their results.
- **The monitoring service** is the `MetricClient` object. It only records what it receives.
- **The regular expression** is stated as a predicate on the whitespace tokens of the stripped line. `MatchRowComplete` and `MatchRowSound` show this is equivalent to the pattern: the line is the nine groups separated by whitespace runs.

## Model

| member | source | states |
|---|---|---|
| Text.Strip | google-cloud-cassandra-monitor-status/main.py:199 | `str.strip()`: the result starts and ends with a non-space character, or is empty |
| Text.StripCutsOnlySpace | google-cloud-cassandra-monitor-status/main.py:199 | the stripped text is a slice of the input, and only whitespace is cut on either side |
| Text.StripEmptyIffAllSpace | google-cloud-cassandra-monitor-status/main.py:216-218 | a stripped line is empty exactly when the line is all whitespace, which is when the loop skips it |
| Text.StripOfStripped | google-cloud-cassandra-monitor-status/main.py:216 | stripping an already stripped line changes nothing |
| Text.SplitLines | google-cloud-cassandra-monitor-status/main.py:199 | `splitlines()`: no line it yields contains a line break; its inverse is given by the lemmas below |
| Text.SplitLinesOfLine | google-cloud-cassandra-monitor-status/main.py:199 | a non-empty text without a line break is a single line |
| Text.SplitLinesOfJoined | google-cloud-cassandra-monitor-status/main.py:199 | the stripped text the parser splits, lines joined by "\n" with a non-empty unterminated last line, splits back into exactly those lines |
| Text.SplitLinesAtBreak | google-cloud-cassandra-monitor-status/main.py:199 | any single line-break character (\n, \r, \v, \f, \x1c-\x1e, \x85, \u2028, \u2029) ends a line, except a \r followed by \n |
| Text.SplitLinesAtCrLf | google-cloud-cassandra-monitor-status/main.py:199 | "\r\n" ends a line as one break, with no empty line between its two characters |
| Text.SplitLinesOfTerminated | google-cloud-cassandra-monitor-status/main.py:199 | `splitlines()` gives back every line of a newline-terminated text, empty lines included |
| Text.LineBreakIsSpace | google-cloud-cassandra-monitor-status/main.py:199 | every line-break character is also whitespace, so `strip()` removes it |
| Text.Tokens | google-cloud-cassandra-monitor-status/main.py:203-212 | the `\S+` runs of a line: each token is non-empty and has no whitespace |
| Text.Gaps | google-cloud-cassandra-monitor-status/main.py:203-212 | the `\s+` runs between tokens: each is non-empty whitespace |
| Text.InterleaveOfTokens | google-cloud-cassandra-monitor-status/main.py:203-212 | a stripped non-empty line is exactly its tokens joined by its gaps, with one gap fewer than tokens |
| Text.TokensOfInterleave | google-cloud-cassandra-monitor-status/main.py:203-212 | words joined by whitespace runs tokenise back to those words (the inverse of the above) |
| Text.Contains | google-cloud-cassandra-monitor-status/main.py:222 | substring `in`: true exactly when the substring occurs at some position |
| Text.ToLower | google-cloud-cassandra-monitor-status/main.py:253 | `lower()`: same length, no ASCII capital survives, every other character is unchanged, and the input is a case variant of the result |
| Text.ToUpper | google-cloud-cassandra-monitor-status/main.py:234 | `upper()`: same length, no ASCII small letter survives, every other character is unchanged, and lower-casing the result gives the lower-cased input |
| Text.LowerEqualsIffCaseVariant | google-cloud-cassandra-monitor-status/main.py:253 | `s.lower() == w` for a lowercase `w` exactly when `s` is `w` in some mixture of cases |
| Numbers.DigitsValueConcat | google-cloud-cassandra-monitor-status/main.py:233 | the value of concatenated digit strings is the first value shifted by the second's length plus the second value |
| Numbers.FractionLiteralParts | google-cloud-cassandra-monitor-status/main.py:209-210 | `whole.frac` is a `\d+\.\d+` literal whose dot follows the whole part |
| Numbers.IntegerLiteralValue | google-cloud-cassandra-monitor-status/main.py:233 | `float()` of a `\d+` literal is its integer value |
| Numbers.FractionLiteralValue | google-cloud-cassandra-monitor-status/main.py:233-252 | `float()` of `whole.frac` is `whole + frac / 10^len(frac)`, exactly |
| Numbers.ScaleTruncate | google-cloud-cassandra-monitor-status/main.py:235-238 | `int(val * factor)` on a non-negative value: the largest integer not above the product |
| Numbers.LoadBytesIsTruncatedProduct | google-cloud-cassandra-monitor-status/main.py:231-238 | the load in bytes is `val * 1024^k` truncated, with k = 1, 2, 3, 4 for KB, MB, GB, TB |
| Numbers.UpperOfUnit | google-cloud-cassandra-monitor-status/main.py:234 | `upper()` leaves each of the four unit names the pattern admits unchanged |
| Numbers.ParseDecimal | google-cloud-cassandra-monitor-status/main.py:233-252 | `float()` of a load value or ownership literal as an exact decimal; its value is given by IntegerLiteralValue and FractionLiteralValue |
| Numbers.LoadBytes | google-cloud-cassandra-monitor-status/main.py:231-238 | the load of a matched line in bytes; LoadBytesIsTruncatedProduct states what it is |
| Numbers.LoadBytesFractionExample | google-cloud-cassandra-monitor-status/main.py:233-235 | "2.5" GB is 2684354560 bytes |
| Numbers.LoadBytesIntegerExamples | google-cloud-cassandra-monitor-status/main.py:233-238 | 100 MB, 1 TB and 512 KB convert to 104857600, 1099511627776 and 524288 bytes |
| RingParser.MatchRow | google-cloud-cassandra-monitor-status/main.py:203-229 | a match satisfies every group's constraint (status Up/Down, load value and unit, ownership literal) |
| RingParser.MatchRowComplete | google-cloud-cassandra-monitor-status/main.py:203-212 | any nine groups meeting the pattern's constraints, joined by any whitespace runs, form a stripped line that matches with exactly those groups |
| RingParser.MatchRowSound | google-cloud-cassandra-monitor-status/main.py:203-212 | a matching line is exactly the nine groups (ownership followed by '%') joined by eight whitespace runs |
| RingParser.GroupTokensOfMatch | google-cloud-cassandra-monitor-status/main.py:229 | the groups of a match are the line's tokens, in order |
| RingParser.IsHeader | google-cloud-cassandra-monitor-status/main.py:222 | the header test: the stripped line contains "Address", "DC" and "Rack", by substring and case-sensitively |
| RingParser.HealthValue | google-cloud-cassandra-monitor-status/main.py:253 | the health of a record; HealthValueMeaning states which records are healthy |
| RingParser.NodeFromRow | google-cloud-cassandra-monitor-status/main.py:242-254 | the record of a matched line: the reporter's ip, instance id and zone; the address, DC, rack, status and state groups; LoadBytes of the load value and unit; the exact value of `float(ownership)`; HealthValue of status and state; and a load share of 0 until the second pass |
| RingParser.HealthValueMeaning | google-cloud-cassandra-monitor-status/main.py:253 | health is 0 or 1, and 1 exactly when the status is Up and the state is "normal" in any case |
| RingParser.HealthValueExamples | google-cloud-cassandra-monitor-status/main.py:253 | Up/Normal and Up/NORMAL give 1; Up/Leaving and any Down give 0 |
| RingParser.StepLine | google-cloud-cassandra-monitor-status/main.py:215-258 | one iteration of the line loop: a blank line is skipped, before the header a line only sets the header flag, after it a line adds its match's record |
| RingParser.ParseLines | google-cloud-cassandra-monitor-status/main.py:215-258 | the line loop as a fold of StepLine; SkipsThroughHeader and AfterHeader state what it collects |
| RingParser.ParseLinesAppend | google-cloud-cassandra-monitor-status/main.py:215-258 | the line loop over two consecutive parts is the loop over the second part, started from where the first left off |
| RingParser.AfterHeader | google-cloud-cassandra-monitor-status/main.py:226-254 | once the header is passed, every later line contributes its match's record, in line order |
| RingParser.BeforeHeader | google-cloud-cassandra-monitor-status/main.py:220-224 | until a header line appears, every line is skipped and no record is made |
| RingParser.SkipsThroughHeader | google-cloud-cassandra-monitor-status/main.py:214-254 | the records are those of the lines after the first header line, and the header itself gives none |
| RingParser.NoHeaderNoRecords | google-cloud-cassandra-monitor-status/main.py:220-224 | output without a header line gives no records |
| RingParser.RecordsReportedBy | google-cloud-cassandra-monitor-status/main.py:242-245 | every record the loop adds carries the reporter's ip, instance id and zone |
| RingParser.WithLoadPercentages | google-cloud-cassandra-monitor-status/main.py:261-267 | the second pass; LoadPercentagesBounded and LoadPercentagesSumTo100 state what it computes |
| RingParser.TotalLoad | google-cloud-cassandra-monitor-status/main.py:262 | the sum of the records' loads in bytes; LoadAtMostTotal and PrefixSums state its properties |
| RingParser.LoadPercentagesBounded | google-cloud-cassandra-monitor-status/main.py:261-267 | the second pass changes only each record's load percentage, which lies in [0, 100] and is 0 for all when the total load is 0 |
| RingParser.LoadAtMostTotal | google-cloud-cassandra-monitor-status/main.py:262 | no record's load exceeds the sum of all loads |
| RingParser.ShareBounded | google-cloud-cassandra-monitor-status/main.py:265 | a load not above a positive total has a share between 0 and 100 |
| RingParser.LoadPercentagesSumTo100 | google-cloud-cassandra-monitor-status/main.py:261-267 | when the total load is positive, the percentages add up to exactly 100 |
| RingParser.PrefixSums | google-cloud-cassandra-monitor-status/main.py:261-267 | the percentages of the first k records add up to their share of the total |
| RingParser.LoadPercentagesExample | google-cloud-cassandra-monitor-status/main.py:261-267 | loads 100, 300, 0 give 25, 75, 0 percent |
| RingParser.RingLines | google-cloud-cassandra-monitor-status/main.py:199 | `ring_output.strip().splitlines()`; SplitLinesOfJoined states which lines it gives back |
| RingParser.ParseRing | google-cloud-cassandra-monitor-status/main.py:193-269 | what the parser returns: the first loop over the stripped output's lines, then the load shares |
| RingParser.ParseRingReportedBy | google-cloud-cassandra-monitor-status/main.py:193-269 | every returned record carries the reporter's identity |
| RingParser.ParseNodetoolRingOutput | google-cloud-cassandra-monitor-status/main.py:193-269 | the loop over the lines, then the percentage pass, returns the fold's records with their shares, all reported by the reporter |
| RingParser.AddLoadPercentages | google-cloud-cassandra-monitor-status/main.py:261-267 | the sum-then-update loops give every record its share of the total load |
| Metrics.TruncateToInt | google-cloud-cassandra-monitor-status/main.py:295 | `int()` of a float truncates toward zero: within 1 of the value, on the side of 0 |
| Metrics.CreateTimeSeries | google-cloud-cassandra-monitor-status/main.py:272-305 | the point create_time_series builds; CreateTimeSeriesValue and CreateTimeSeriesIdentity state its value and identity |
| Metrics.CreateTimeSeriesValue | google-cloud-cassandra-monitor-status/main.py:293-297 | INT64 stores `int(value)`, exact for an int and truncated toward zero for a float; DOUBLE stores `float(value)`; any other value type leaves the point unset |
| Metrics.CreateTimeSeriesIdentity | google-cloud-cassandra-monitor-status/main.py:280-288 | the point carries the given metric type and labels and a gce_instance resource with exactly the project, instance and zone labels |
| Metrics.Chunks | google-cloud-cassandra-monitor-status/main.py:316-317 | the slices `s[i:i + 20]`; ChunksFlatten, ChunksSizes and ChunksCount state what they are |
| Metrics.ChunksFlatten | google-cloud-cassandra-monitor-status/main.py:316-317 | the batches, concatenated, are the original list: nothing lost, duplicated or reordered |
| Metrics.ChunksSizes | google-cloud-cassandra-monitor-status/main.py:315-317 | every batch is non-empty and at most 20 long, and all but the last are exactly 20 long |
| Metrics.ChunksCount | google-cloud-cassandra-monitor-status/main.py:316 | there are ceil(n / 20) batches |
| Metrics.RequestsShape | google-cloud-cassandra-monitor-status/main.py:316-319 | one request per batch, in order, each to the project name |
| Metrics.MetricClient.constructor | google-cloud-cassandra-monitor-status/main.py:97 | a fresh client has received no requests |
| Metrics.MetricClient.CreateTimeSeries | google-cloud-cassandra-monitor-status/main.py:319 | the call appends exactly one request with the given name and points |
| Metrics.SendMetricsBatch | google-cloud-cassandra-monitor-status/main.py:307-325 | an empty list sends nothing; otherwise the client receives one request per slice of at most 20 points, in order |
| Monitor.ReachabilitySeries | google-cloud-cassandra-monitor-status/main.py:328-351 | the point report_node_reachability builds; ReachabilitySeriesMeaning states it |
| Monitor.ReachabilitySeriesMeaning | google-cloud-cassandra-monitor-status/main.py:328-351 | an INT64 reachability point about the target node, with its ip and name and a failure reason that is "success" when none is given |
| Monitor.ReportNodeReachability | google-cloud-cassandra-monitor-status/main.py:328-352 | the client receives exactly one request holding that one point |
| Monitor.FailureDetail | google-cloud-cassandra-monitor-status/main.py:387-390 | the failure reason of an unreachable node; FailureDetailMeaning states it |
| Monitor.FailureDetailMeaning | google-cloud-cassandra-monitor-status/main.py:387-390 | a failed ping always gives "ping_failed"; otherwise the command's error when non-empty, else "unknown_iap_ssh_error"; never empty |
| Monitor.ObservationMetricIsNotReachability | google-cloud-cassandra-monitor-status/main.py:102-106 | none of the four observation metrics is the reachability metric |
| Monitor.ObservationSeries | google-cloud-cassandra-monitor-status/main.py:414-457 | the four points of one observed node, in the order main appends them; ObservationSeriesPoint states each |
| Monitor.ObservationsOfShape | google-cloud-cassandra-monitor-status/main.py:412-457 | four points per observed node, in node order: point 4i+k is the k-th point of node i |
| Monitor.ObservationSeriesPoint | google-cloud-cassandra-monitor-status/main.py:414-457 | the k-th point of a node is health, ownership, load bytes or load percentage, with the node's six labels and the reporter's resource, and carries the node's health, ownership, load bytes or load share as its value: INT64 for health and load bytes, DOUBLE for the other two |
| Monitor.ObservationsOfPoints | google-cloud-cassandra-monitor-status/main.py:412-457 | every collected point has its position's metric, its node's labels, the reporter's resource, its position's value type, and the matching field of its node as its value |
| Monitor.ProcessNode | google-cloud-cassandra-monitor-status/main.py:362-457 | what one node contributes: its reachability point and its observation points; ProcessNodeFailure, ProcessNodeSuccess and OutcomesOfNodes state it |
| Monitor.ProcessNodeFailure | google-cloud-cassandra-monitor-status/main.py:384-393 | a node without output is reported 0 with the failure detail and contributes no observation |
| Monitor.ProcessNodeSuccess | google-cloud-cassandra-monitor-status/main.py:395-457 | a node with output is reported 1 with "success" and contributes four points per parsed record, each labelled with the reporter's ip and placed on the reporter's instance |
| Monitor.OutcomesStep | google-cloud-cassandra-monitor-status/main.py:362 | each further node adds its reachability request and its points after those of the nodes before it |
| Monitor.ReachabilityRequestsShape | google-cloud-cassandra-monitor-status/main.py:362-396 | exactly one reachability request per node, in configuration order, each with that node's point alone |
| Monitor.NoReachabilityPointConcat | google-cloud-cassandra-monitor-status/main.py:424-457 | appending point lists without reachability points gives none |
| Monitor.ObservationsAreNotReachability | google-cloud-cassandra-monitor-status/main.py:412-457 | the points of observed nodes hold no reachability point |
| Monitor.NodeObservationsAreNotReachability | google-cloud-cassandra-monitor-status/main.py:384-457 | whatever the command returns, a node's collected points hold no reachability point |
| Monitor.NoReachabilityInObservations | google-cloud-cassandra-monitor-status/main.py:360-457 | the points collected over all nodes hold no reachability point |
| Monitor.RequestsAfter | google-cloud-cassandra-monitor-status/main.py:459-461 | the batch requests follow the earlier requests, which stay in place, and all go to the same project name |
| Monitor.RunRequestsShape | google-cloud-cassandra-monitor-status/main.py:355-463 | a run sends one single-point request per node, then the collected points in batches of at most 20 that put them back together in order, all to the project name |
| Monitor.OutcomesOfNodes | google-cloud-cassandra-monitor-status/main.py:362-396 | one outcome per node, each a reachability point on that node's instance with its ip, valued 1 exactly when the command gave output and 0 exactly when it did not |
| Monitor.RunObservationsAreNotReachability | google-cloud-cassandra-monitor-status/main.py:355-463 | the batched points of a run never include a reachability point |
| Monitor.AppendObservations | google-cloud-cassandra-monitor-status/main.py:412-457 | the loop appends four points per observed node, in order, to the collected list |
| Monitor.ProcessReporterNode | google-cloud-cassandra-monitor-status/main.py:362-457 | one iteration of main's loop sends that node's reachability request and returns that node's points |
| Monitor.Run | google-cloud-cassandra-monitor-status/main.py:355-465 | the client receives exactly the requests of `RunRequests` over the nodes' outcomes, after those it had already received |
| Monitor.UnreachableNodeScenario | google-cloud-cassandra-monitor-status/main.py:384-393 | a node that gives no output and fails the ping yields one request: reachability 0, "ping_failed", and nothing else |
| Monitor.FailingCommandScenario | google-cloud-cassandra-monitor-status/main.py:384-393 | a pingable node whose command fails with an error yields one request: reachability 0 with that error |
| Monitor.EmptyOutputScenario | google-cloud-cassandra-monitor-status/main.py:395-408 | empty output yields one request, reachability 1 with "success", and no batch |
| Config.CheckKeysAccepted | google-cloud-cassandra-monitor-status/main.py:37-40 | a key loop passes exactly when every key answers `in` with True |
| Config.CheckKeysRejected | google-cloud-cassandra-monitor-status/main.py:37-40 | a rejection names the first key that is missing, all keys before it being present |
| Config.CheckKeysFirstMissing | google-cloud-cassandra-monitor-status/main.py:37-40 | when key j is the first missing one, the loop raises the error for key j |
| Config.CheckInstancesAccepted | google-cloud-cassandra-monitor-status/main.py:63-68 | the instance loop passes exactly when every entry holds the four instance keys (and, with the mapping check, is a mapping) |
| Config.CommonSettingsAccepted | google-cloud-cassandra-monitor-status/main.py:42-50 | the common settings pass exactly when both keys are present and `nodetool_path` is a string not ending in '/' |
| Config.ValidateConfig | google-cloud-cassandra-monitor-status/main.py:36-69 | load_config's checks in the source's order, ending in acceptance, the ValueError raised, or another exception; ValidateConfigAccepted states what it accepts |
| Config.ValidateAccepted | google-cloud-cassandra-monitor-status/main.py:36-69 | validation accepts exactly the well-formed documents (restricted to mapping entries when that check is on) |
| Config.ValidateConfigAccepted | google-cloud-cassandra-monitor-status/main.py:36-69 | load_config returns a document exactly when it is well formed: four sections, both common keys with a non-directory nodetool path, both timeouts, a non-empty instance list whose entries hold the instance keys |
| Config.ValidateConfigStrictAccepted | google-cloud-cassandra-monitor-status/main.py:63-68 | with the mapping check, accepted exactly when well formed and every instance entry is a mapping |
| Config.MissingSectionReported | google-cloud-cassandra-monitor-status/main.py:36-40 | a mapping missing a required section is rejected naming the first missing one |
| Config.MergeSettings | google-cloud-cassandra-monitor-status/main.py:92 | `{**instance, **common}`: the merged keys are the union, and a common setting overrides the instance's |
| Config.CassandraNodes | google-cloud-cassandra-monitor-status/main.py:89-93 | one merged entry per instance, in order: entry i is instance i merged with the common settings, so it has the four instance keys and the common ssh user and nodetool path |
| Config.ExampleWellFormed | google-cloud-cassandra-monitor-status/main.py:36-69 | a document with every section and one entry holding the instance keys is well formed |
| Config.TextHasInstanceKeys | google-cloud-cassandra-monitor-status/main.py:65-66 | a string entry in which each key name occurs passes every `key in instance_conf` test |
| Config.StringInstanceAccepted | google-cloud-cassandra-monitor-status/main.py:63-68 | a string entry spelling out the key names is accepted as written and rejected by the mapping check |

## Left out

- File reading and YAML parsing: the configuration is modelled from the parsed document (`Config.Yaml`). A missing file and malformed YAML are not modelled.
- The remote command (`execute_command_via_iap`), `ping_check` and the subprocess, SSH and timeout handling inside them: they are inputs of `Monitor.Run`, as functions of their arguments. A pure `ping` stands for the real one, which is only called on the failure path; calling a pure function has no other effect. Because both are functions, two configured entries with identical settings get identical outcomes in one run, where the real calls can differ from one call to the next.
- Timestamps (`get_current_timestamp_pb` and the point's end time) are not part of a modelled point.
- Metrics.SendMetricsBatch: a request that the service rejects is logged and ignored in the source, so the model records every request as sent and does not model the service's failures.
- Logging, including the debug-only branch for unparsed lines (lines 255-258), which has no effect on the result.
- The `ValueError` handler of the load conversion (lines 239-240): the pattern guarantees the load value is a decimal literal, so `float()` cannot fail there.
- Numbers.ParseDecimal: decimal literals are read exactly, as rationals, not rounded to the nearest double. The load in bytes and the percentages are exact. Python's value can differ by far more than the last digit once a literal needs more than 53 bits: `float("9007199254740993")` is 2^53, so 9007199254740993 KB gives 9223372036854775808 bytes in the source and 9223372036854776832 in the model.
- Numbers.LoadBytes: a load value too large for a double becomes `inf` in the source. `int(val * 1024)` then raises OverflowError, which the `except ValueError` at line 239 does not catch, so the parse and the whole run stop. The model has no such path and returns the exact byte count.
- RingParser.LoadPercentagesSumTo100: it holds for exact reals; with binary floats the sum is only close to 100.
- Numbers.IsDigit: only ASCII digits count as `\d`. Python's `\d` also matches the other Unicode decimal digits.
- Text.ToLower and Text.ToUpper: only ASCII letters change case.
- Metrics.CreateTimeSeries: integers are unbounded. Overflow of `int64_value` and conversion of label values with `str()` are not modelled; labels are already strings in the model.
- Config.Yaml: mapping keys are strings, and numbers, booleans and null are one scalar kind. A YAML mapping with non-string keys is not modelled.
- Config.CassandraNodes: defined for documents that pass the mapping check. The source also merges string entries that `load_config` lets through (see Findings), and that merge raises a TypeError.
- Monitor.NodeConfig: a node's settings are strings, and each non-string YAML value is taken as its `str()` text. The source uses a non-string `instance_name`, `ip` or `ssh_user` through that text: in the f-strings at lines 154-156, and in `str(v_label)` at line 283. A non-string `nodetool_path` never gets this far: the `endswith` call at line 48 raises on it, which `Config.CheckNodetoolPath` models as a crash, and the merge at line 92 gives every node that checked common value. A non-string `ip` also makes the ping's subprocess call raise; `ping_check` turns that into False at lines 134-136, and the model's `ping` is an input that may answer so. A non-string `instance_id` or `zone` (or `project_id`) makes the resource-label assignments at lines 286-288 raise a TypeError. That happens when the node's reachability point is built, and it stops `main`. The model does not have this path. Timeouts are integers in the model.

## Findings

| source | as written | input that shows it | evidently intended | confidence | as-written member | corrected member |
|---|---|---|---|---|---|---|
| google-cloud-cassandra-monitor-status/main.py:63-68 | each instance entry is checked only with `key in instance_conf`, which is a substring test on a string entry | a document whose one instance entry is the string "instance_name instance_id ip zone" passes validation, and the merge at line 92 then fails on it | every instance entry must be a mapping holding the four keys | not executed | Config.StringInstanceAccepted | Config.ValidateConfigStrictAccepted |
