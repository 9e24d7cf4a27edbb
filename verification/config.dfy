/** The shape checks load_config in main.py makes on the parsed YAML document,
    in the order it makes them, and the merge of each instance's settings
    with the common ones that builds CASSANDRA_NODES. Reading the file and
    parsing YAML are not modelled: the input is the parsed document. */
module Config {
  import opened Wrappers
  import opened Text

  /** A parsed YAML value: a mapping with string keys, a list, a string, or
      any other scalar (number, boolean, null). */
  datatype Yaml = YMap(entries: map<String, Yaml>) | YList(items: seq<Yaml>) | YStr(text: String) | YScalar

  const RequiredKeys: seq<String> := ["project_id", "common_cassandra_settings", "timeouts", "cassandra_instances"]
  const CommonSettingsKeys: seq<String> := ["ssh_user", "nodetool_path"]
  const TimeoutKeys: seq<String> := ["ssh_connect_timeout_sec", "command_timeout_sec"]
  const InstanceKeys: seq<String> := ["instance_name", "instance_id", "ip", "zone"]

  /** Python's `key in value`: a key of a mapping, an element of a list, a
      substring of a string; None where Python raises TypeError. */
  function KeyIn(key: String, value: Yaml): Option<bool> {
    match value
    case YMap(entries) => Some(key in entries)
    case YList(items) => Some(YStr(key) in items)
    case YStr(text) => Some(Contains(text, key))
    case YScalar => None
  }

  /** Where a missing key was looked for. */
  datatype Section = TopLevel | CommonSettings | TimeoutSettings | Instance(index: nat)

  /** The ValueErrors load_config raises. */
  datatype ConfigError =
    | MissingKey(section: Section, key: String)
    | NodetoolPathIsDirectory(value: String)
    | InstancesNotNonEmptyList
    | InstanceNotMapping(index: nat)

  /** How validation ends: the document is returned, a ValueError is raised,
      or another exception (TypeError, AttributeError) escapes. */
  datatype Verdict = Accepted | Rejected(error: ConfigError) | Crashed

  /** The first verdict unless it accepts, then the second. */
  function Then(first: Verdict, rest: Verdict): Verdict {
    if first == Accepted then rest else first
  }

  /** `for key in keys: if key not in value: raise ValueError(…)` */
  function CheckKeys(keys: seq<String>, value: Yaml, section: Section): Verdict {
    if keys == [] then Accepted
    else
      match KeyIn(keys[0], value)
      case None => Crashed
      case Some(false) => Rejected(MissingKey(section, keys[0]))
      case Some(true) => CheckKeys(keys[1..], value, section)
  }

  /** `common["nodetool_path"].endswith('/')` raises the directory error. */
  function CheckNodetoolPath(common: Yaml): Verdict {
    match common
    case YMap(entries) =>
      if "nodetool_path" !in entries then Crashed
      else (
        match entries["nodetool_path"]
        case YStr(path) => if EndsWith(path, "/") then Rejected(NodetoolPathIsDirectory(path)) else Accepted
        case _ => Crashed)
    case _ => Crashed
  }

  /** The loop over the common settings keys: "ssh_user" must be present,
      then "nodetool_path" must be present and must not end in '/'. */
  function CheckCommonSettings(common: Yaml): Verdict {
    Then(CheckKeys(CommonSettingsKeys, common, CommonSettings), CheckNodetoolPath(common))
  }

  /** The check of one instance entry: the four keys, each tested with
      `key in instance_conf`; with `requireMapping`, the entry must first be
      a mapping. */
  function CheckInstance(item: Yaml, index: nat, requireMapping: bool): Verdict {
    if requireMapping && !item.YMap? then Rejected(InstanceNotMapping(index))
    else CheckKeys(InstanceKeys, item, Instance(index))
  }

  /** `for i, instance_conf in enumerate(…)`, starting at index `from`. */
  function CheckInstances(items: seq<Yaml>, from: nat, requireMapping: bool): Verdict
    decreases |items|
  {
    if items == [] then Accepted
    else Then(CheckInstance(items[0], from, requireMapping), CheckInstances(items[1..], from + 1, requireMapping))
  }

  function CheckInstanceList(instances: Yaml, requireMapping: bool): Verdict {
    match instances
    case YList(items) => if items == [] then Rejected(InstancesNotNonEmptyList) else CheckInstances(items, 0, requireMapping)
    case _ => Rejected(InstancesNotNonEmptyList)
  }

  /** The validation of load_config, check after check, as written. */
  function ValidateConfig(config: Yaml): Verdict {
    Validate(config, false)
  }

  /** The validation with every instance entry required to be a mapping, as
      the instance check evidently intends. */
  function ValidateConfigStrict(config: Yaml): Verdict {
    Validate(config, true)
  }

  function Validate(config: Yaml, requireMapping: bool): Verdict {
    Then(CheckKeys(RequiredKeys, config, TopLevel),
      match config
      case YMap(e) =>
        if "common_cassandra_settings" in e && "timeouts" in e && "cassandra_instances" in e then
          Then(CheckCommonSettings(e["common_cassandra_settings"]),
          Then(CheckKeys(TimeoutKeys, e["timeouts"], TimeoutSettings),
            CheckInstanceList(e["cassandra_instances"], requireMapping)))
        else Crashed
      case _ => Crashed)
  }

  // ---------------------------------------------------------------------------
  // What the checks accept, stated at once

  /** Every key answers `key in value` with True. */
  predicate HasKeys(value: Yaml, keys: seq<String>) {
    forall i :: 0 <= i < |keys| ==> KeyIn(keys[i], value) == Some(true)
  }

  predicate ValidNodetoolPath(common: Yaml) {
    && common.YMap?
    && "nodetool_path" in common.entries
    && common.entries["nodetool_path"].YStr?
    && !EndsWith(common.entries["nodetool_path"].text, "/")
  }

  /** A document load_config returns: a mapping with the four sections; the
      common settings a mapping with both keys and a nodetool path that does
      not end in '/'; the timeouts holding both keys; a non-empty instance
      list whose entries hold the four instance keys. */
  predicate WellFormedConfig(config: Yaml) {
    && config.YMap?
    && var e := config.entries;
    && "project_id" in e && "common_cassandra_settings" in e && "timeouts" in e && "cassandra_instances" in e
    && HasKeys(e["common_cassandra_settings"], CommonSettingsKeys)
    && ValidNodetoolPath(e["common_cassandra_settings"])
    && HasKeys(e["timeouts"], TimeoutKeys)
    && e["cassandra_instances"].YList?
    && |e["cassandra_instances"].items| > 0
    && forall i :: 0 <= i < |e["cassandra_instances"].items| ==> HasKeys(e["cassandra_instances"].items[i], InstanceKeys)
  }

  lemma {:induction false} CheckKeysAccepted(keys: seq<String>, value: Yaml, section: Section)
    ensures CheckKeys(keys, value, section) == Accepted <==> HasKeys(value, keys)
    decreases |keys|
  {
    if keys != [] {
      CheckKeysAccepted(keys[1..], value, section);
      if KeyIn(keys[0], value) == Some(true) {
        assert HasKeys(value, keys) <==> HasKeys(value, keys[1..]) by {
          if HasKeys(value, keys[1..]) {
            forall i | 0 <= i < |keys| ensures KeyIn(keys[i], value) == Some(true) {
              if i > 0 {
                assert keys[i] == keys[1..][i - 1];
              }
            }
          }
        }
      }
    }
  }

  /** A missing key is reported as the first key of the list that is
      missing, and nothing but a missing key is reported. */
  lemma {:induction false} CheckKeysRejected(keys: seq<String>, value: Yaml, section: Section)
    requires CheckKeys(keys, value, section).Rejected?
    ensures exists j :: (
      && 0 <= j < |keys|
      && CheckKeys(keys, value, section) == Rejected(MissingKey(section, keys[j]))
      && KeyIn(keys[j], value) == Some(false)
      && forall i :: 0 <= i < j ==> KeyIn(keys[i], value) == Some(true))
    decreases |keys|
  {
    if KeyIn(keys[0], value) == Some(false) {
      assert CheckKeys(keys, value, section) == Rejected(MissingKey(section, keys[0]));
    } else {
      CheckKeysRejected(keys[1..], value, section);
      var j :| 0 <= j < |keys[1..]|
        && CheckKeys(keys[1..], value, section) == Rejected(MissingKey(section, keys[1..][j]))
        && KeyIn(keys[1..][j], value) == Some(false)
        && forall i :: 0 <= i < j ==> KeyIn(keys[1..][i], value) == Some(true);
      assert keys[j + 1] == keys[1..][j];
      forall i | 0 <= i < j + 1 ensures KeyIn(keys[i], value) == Some(true) {
        if i > 0 {
          assert keys[i] == keys[1..][i - 1];
        }
      }
    }
  }

  lemma {:induction false} CheckInstancesAccepted(items: seq<Yaml>, from: nat, requireMapping: bool)
    ensures CheckInstances(items, from, requireMapping) == Accepted
      <==> forall i :: 0 <= i < |items| ==> HasKeys(items[i], InstanceKeys) && (requireMapping ==> items[i].YMap?)
    decreases |items|
  {
    if items != [] {
      CheckKeysAccepted(InstanceKeys, items[0], Instance(from));
      CheckInstancesAccepted(items[1..], from + 1, requireMapping);
      assert forall i :: 1 <= i < |items| ==> items[i] == items[1..][i - 1];
    }
  }

  lemma CommonSettingsAccepted(common: Yaml)
    ensures CheckCommonSettings(common) == Accepted <==> HasKeys(common, CommonSettingsKeys) && ValidNodetoolPath(common)
  {
    CheckKeysAccepted(CommonSettingsKeys, common, CommonSettings);
  }

  /** Every entry of the instance list is a mapping. */
  predicate InstancesAreMappings(config: Yaml) {
    && config.YMap?
    && "cassandra_instances" in config.entries
    && config.entries["cassandra_instances"].YList?
    && forall i :: 0 <= i < |config.entries["cassandra_instances"].items| ==> config.entries["cassandra_instances"].items[i].YMap?
  }

  lemma ValidateAccepted(config: Yaml, requireMapping: bool)
    ensures Validate(config, requireMapping) == Accepted
      <==> WellFormedConfig(config) && (requireMapping ==> InstancesAreMappings(config))
  {
    CheckKeysAccepted(RequiredKeys, config, TopLevel);
    if config.YMap? {
      var e := config.entries;
      if "common_cassandra_settings" in e && "timeouts" in e && "cassandra_instances" in e {
        CommonSettingsAccepted(e["common_cassandra_settings"]);
        CheckKeysAccepted(TimeoutKeys, e["timeouts"], TimeoutSettings);
        if e["cassandra_instances"].YList? {
          CheckInstancesAccepted(e["cassandra_instances"].items, 0, requireMapping);
        }
      }
      if HasKeys(config, RequiredKeys) {
        assert KeyIn(RequiredKeys[0], config) == Some(true);
        assert KeyIn(RequiredKeys[1], config) == Some(true);
        assert KeyIn(RequiredKeys[2], config) == Some(true);
        assert KeyIn(RequiredKeys[3], config) == Some(true);
      }
    }
  }

  /** The checks as written accept exactly the well-formed documents. */
  lemma ValidateConfigAccepted(config: Yaml)
    ensures ValidateConfig(config) == Accepted <==> WellFormedConfig(config)
  {
    ValidateAccepted(config, false);
  }

  /** The intended checks accept exactly the well-formed documents whose
      instance entries are all mappings. */
  lemma ValidateConfigStrictAccepted(config: Yaml)
    ensures ValidateConfigStrict(config) == Accepted <==> WellFormedConfig(config) && InstancesAreMappings(config)
  {
    ValidateAccepted(config, true);
  }

  /** The first key that is missing is the one reported. */
  lemma {:induction false} CheckKeysFirstMissing(keys: seq<String>, value: Yaml, section: Section, j: nat)
    requires j < |keys| && KeyIn(keys[j], value) == Some(false)
    requires forall i :: 0 <= i < j ==> KeyIn(keys[i], value) == Some(true)
    ensures CheckKeys(keys, value, section) == Rejected(MissingKey(section, keys[j]))
    decreases j
  {
    if j > 0 {
      assert KeyIn(keys[0], value) == Some(true);
      assert keys[1..][j - 1] == keys[j];
      forall i | 0 <= i < j - 1 ensures KeyIn(keys[1..][i], value) == Some(true) {
        assert keys[1..][i] == keys[i + 1];
      }
      CheckKeysFirstMissing(keys[1..], value, section, j - 1);
    }
  }

  /** A document without one of the four sections is rejected naming the
      first one missing, in the order project_id, common_cassandra_settings,
      timeouts, cassandra_instances. */
  lemma MissingSectionReported(config: Yaml, j: nat)
    requires config.YMap? && j < |RequiredKeys|
    requires RequiredKeys[j] !in config.entries
    requires forall i :: 0 <= i < j ==> RequiredKeys[i] in config.entries
    ensures ValidateConfig(config) == Rejected(MissingKey(TopLevel, RequiredKeys[j]))
  {
    CheckKeysFirstMissing(RequiredKeys, config, TopLevel, j);
  }

  // ---------------------------------------------------------------------------
  // Building CASSANDRA_NODES

  /** `{**instance_conf, **COMMON_SETTINGS}`: the common settings win. */
  function MergeSettings(instance: map<String, Yaml>, common: map<String, Yaml>): (merged: map<String, Yaml>)
    ensures merged.Keys == instance.Keys + common.Keys
    ensures forall key :: key in common ==> merged[key] == common[key]
    ensures forall key :: key in instance && key !in common ==> merged[key] == instance[key]
  {
    instance + common
  }

  /** CASSANDRA_NODES: each instance entry merged with the common settings.
      Defined on the documents the intended checks accept. */
  function CassandraNodes(config: Yaml): (nodes: seq<map<String, Yaml>>)
    requires ValidateConfigStrict(config) == Accepted
    ensures |nodes| == |config.entries["cassandra_instances"].items| > 0
    ensures forall i :: 0 <= i < |nodes| ==>
      && (forall k :: 0 <= k < |InstanceKeys| ==> InstanceKeys[k] in nodes[i])
      && "ssh_user" in nodes[i] && "nodetool_path" in nodes[i]
      && nodes[i]["ssh_user"] == config.entries["common_cassandra_settings"].entries["ssh_user"]
      && nodes[i]["nodetool_path"] == config.entries["common_cassandra_settings"].entries["nodetool_path"]
    ensures forall i :: 0 <= i < |nodes| ==>
      && config.entries["cassandra_instances"].items[i].YMap?
      && nodes[i] == MergeSettings(config.entries["cassandra_instances"].items[i].entries,
                                   config.entries["common_cassandra_settings"].entries)
  {
    ValidateConfigStrictAccepted(config);
    var common := config.entries["common_cassandra_settings"];
    var items := config.entries["cassandra_instances"].items;
    assert KeyIn("ssh_user", common) == Some(true) by {
      assert CommonSettingsKeys[0] == "ssh_user";
    }
    seq(|items|, i requires 0 <= i < |items| =>
      assert items[i].YMap? && HasKeys(items[i], InstanceKeys);
      MergeSettings(items[i].entries, common.entries))
  }

  // ---------------------------------------------------------------------------
  // A document the checks let through

  /** A document with one instance entry, otherwise well formed. */
  function ExampleConfig(instance: Yaml): Yaml {
    YMap(map[
      "project_id" := YStr("my-project"),
      "common_cassandra_settings" := YMap(map["ssh_user" := YStr("cassandra"), "nodetool_path" := YStr("/usr/bin/nodetool")]),
      "timeouts" := YMap(map["ssh_connect_timeout_sec" := YScalar, "command_timeout_sec" := YScalar]),
      "cassandra_instances" := YList([instance])])
  }

  /** The example is well formed whenever its one entry holds the instance
      keys. */
  lemma ExampleWellFormed(instance: Yaml)
    requires HasKeys(instance, InstanceKeys)
    ensures WellFormedConfig(ExampleConfig(instance))
  {
    var config := ExampleConfig(instance);
    assert HasKeys(config.entries["common_cassandra_settings"], CommonSettingsKeys);
    assert !EndsWith("/usr/bin/nodetool", "/") by {
      assert "/usr/bin/nodetool"[16] == 'l';
    }
    assert HasKeys(config.entries["timeouts"], TimeoutKeys);
  }

  /** A string holds the instance keys when each key name occurs in it. */
  lemma TextHasInstanceKeys(text: String, a: nat, b: nat, c: nat, d: nat)
    requires OccursAt(text, "instance_name", a) && OccursAt(text, "instance_id", b)
    requires OccursAt(text, "ip", c) && OccursAt(text, "zone", d)
    ensures HasKeys(YStr(text), InstanceKeys)
  {
    assert Contains(text, InstanceKeys[0]) && Contains(text, InstanceKeys[1]);
    assert Contains(text, InstanceKeys[2]) && Contains(text, InstanceKeys[3]);
  }

  /** The string mentions every instance key name. */
  lemma KeyNamesTextHasInstanceKeys()
    ensures HasKeys(YStr("instance_name instance_id ip zone"), InstanceKeys)
  {
    var text: String := "instance_name instance_id ip zone";
    assert OccursAt(text, "instance_name", 0) by { assert text[0..13] == "instance_name"; }
    assert OccursAt(text, "instance_id", 14) by { assert text[14..25] == "instance_id"; }
    assert OccursAt(text, "ip", 26) by { assert text[26..28] == "ip"; }
    assert OccursAt(text, "zone", 29) by { assert text[29..33] == "zone"; }
    TextHasInstanceKeys(text, 0, 14, 26, 29);
  }

  /** `key not in instance_conf` on a string entry tests for a substring: a
      string that mentions the four key names passes the checks as written,
      although it is no mapping and the merge that builds CASSANDRA_NODES
      cannot take it. The intended checks reject it. */
  lemma StringInstanceAccepted()
    ensures ValidateConfig(ExampleConfig(YStr("instance_name instance_id ip zone"))) == Accepted
    ensures ValidateConfigStrict(ExampleConfig(YStr("instance_name instance_id ip zone"))) == Rejected(InstanceNotMapping(0))
  {
    var config := ExampleConfig(YStr("instance_name instance_id ip zone"));
    KeyNamesTextHasInstanceKeys();
    ExampleWellFormed(YStr("instance_name instance_id ip zone"));
    ValidateConfigAccepted(config);
    ValidateAccepted(config, false);
    assert Validate(config, false) == Accepted;
    var items := config.entries["cassandra_instances"].items;
    assert CheckInstances(items, 0, true) == Rejected(InstanceNotMapping(0));
  }
}
