/** The parser of `nodetool ring` output: header detection, the per-line
    grammar, the conversion of each matching line into an observed-node record,
    and the pass that adds each record's share of the report's total load
    (parse_nodetool_ring_output in main.py). */
module RingParser {
  import opened Wrappers
  import opened Text
  import opened Numbers

  /** Identity of the node whose `nodetool ring` output is parsed. */
  datatype Reporter = Reporter(ip: String, instanceId: String, zone: String)

  /** The nine named groups of the node-line pattern; `ownership` is the group
      before the '%' sign. */
  datatype RingRow = RingRow(
    address: String,
    datacenter: String,
    rack: String,
    status: String,
    state: String,
    loadValue: String,
    loadUnit: String,
    ownership: String,
    token: String)

  /** One node as seen in the reporter's ring output. */
  datatype ObservedNode = ObservedNode(
    reporterNodeIp: String,
    reporterInstanceId: String,
    reporterZone: String,
    address: String,
    datacenter: String,
    rack: String,
    status: String,
    state: String,
    loadBytes: nat,
    effectiveOwnership: real,
    healthValue: nat,
    loadPercentageOfTotal: real)

  /** `Up|Down` */
  predicate IsStatus(s: String) {
    s == "Up" || s == "Down"
  }

  /** `GB|MB|TB|KB` */
  predicate IsLoadUnit(s: String) {
    s == "GB" || s == "MB" || s == "TB" || s == "KB"
  }

  /** The constraints each group of the node-line pattern puts on its text. */
  predicate IsRowGrammar(g: RingRow) {
    && IsWord(g.address)
    && IsWord(g.datacenter)
    && IsWord(g.rack)
    && IsStatus(g.status)
    && IsWord(g.state)
    && IsLoadValue(g.loadValue)
    && IsLoadUnit(g.loadUnit)
    && IsFractionLiteral(g.ownership)
    && IsWord(g.token)
  }

  /** The whitespace-separated pieces of a line the pattern matches, in order. */
  function GroupTokens(g: RingRow): seq<String> {
    [g.address, g.datacenter, g.rack, g.status, g.state, g.loadValue, g.loadUnit, g.ownership + "%", g.token]
  }

  /** `\d+\.\d+%` */
  predicate IsOwnershipToken(w: String) {
    |w| > 0 && w[|w| - 1] == '%' && IsFractionLiteral(w[..|w| - 1])
  }

  /** The node-line pattern applied to a stripped line: it matches exactly
      when the line has nine tokens whose fourth is a status, whose sixth and
      seventh are a load value and unit, and whose eighth is an ownership. */
  function MatchRow(line: String): (r: Option<RingRow>)
    requires IsStripped(line)
    ensures r.Some? ==> IsRowGrammar(r.value)
  {
    var t := Tokens(line);
    if |t| == 9 && IsStatus(t[3]) && IsLoadValue(t[5]) && IsLoadUnit(t[6]) && IsOwnershipToken(t[7]) then
      Some(RingRow(t[0], t[1], t[2], t[3], t[4], t[5], t[6], t[7][..|t[7]| - 1], t[8]))
    else
      None
  }

  lemma LoadValueIsWord(s: String)
    requires IsLoadValue(s)
    ensures IsWord(s)
  {
    if !IsDigits(s) {
      var k := DotPosition(s);
      forall i | 0 <= i < |s| ensures !IsSpace(s[i]) {
        if i < k {
          assert s[i] == s[..k][i];
        } else if i > k {
          assert s[i] == s[k + 1..][i - k - 1];
        }
      }
    }
  }

  lemma GroupTokensAreWords(g: RingRow)
    requires IsRowGrammar(g)
    ensures forall k :: 0 <= k < 9 ==> IsWord(GroupTokens(g)[k])
  {
    LoadValueIsWord(g.loadValue);
    LoadValueIsWord(g.ownership);
    assert IsWord(g.ownership + "%");
  }

  /** Every line made of the nine groups of a row, separated by runs of
      whitespace, is matched, and the match gives back those groups. */
  lemma MatchRowComplete(g: RingRow, gaps: seq<String>)
    requires IsRowGrammar(g)
    requires |gaps| == 8 && forall k :: 0 <= k < 8 ==> IsGap(gaps[k])
    ensures IsStripped(Interleave(GroupTokens(g), gaps))
    ensures MatchRow(Interleave(GroupTokens(g), gaps)) == Some(g)
  {
    var ts := GroupTokens(g);
    GroupTokensAreWords(g);
    InterleaveStartsWithWord(ts, gaps);
    InterleaveEndsWithWord(ts, gaps);
    var line := Interleave(ts, gaps);
    assert line[0] == ts[0][0];
    TokensOfInterleave(ts, gaps);
    assert (g.ownership + "%")[..|g.ownership|] == g.ownership;
  }

  /** Every matched line is the nine groups of its match separated by runs of
      whitespace: together with MatchRowComplete, the token view and the
      pattern accept the same lines. */
  lemma MatchRowSound(line: String)
    requires IsStripped(line)
    requires MatchRow(line).Some?
    ensures line != [] && |Gaps(line)| == 8
    ensures line == Interleave(GroupTokens(MatchRow(line).value), Gaps(line))
  {
    assert line != [];
    InterleaveOfTokens(line);
    var g := MatchRow(line).value;
    GroupTokensOfMatch(line, g);
  }

  lemma GroupTokensOfMatch(line: String, g: RingRow)
    requires IsStripped(line)
    requires MatchRow(line) == Some(g)
    ensures GroupTokens(g) == Tokens(line)
  {
    var t := Tokens(line);
    assert t[7] == t[7][..|t[7]| - 1] + "%";
  }

  /** The header line: contains "Address", "DC" and "Rack" (case-sensitive). */
  predicate IsHeader(line: String) {
    Contains(line, "Address") && Contains(line, "DC") && Contains(line, "Rack")
  }

  /** `1 if status.lower() == "up" and state.lower() == "normal" else 0` */
  function HealthValue(status: String, state: String): nat {
    if ToLower(status) == "up" && ToLower(state) == "normal" then 1 else 0
  }

  /** Health is 0 or 1, and 1 exactly when the status is Up and the state is
      "normal" in any mixture of cases. */
  lemma HealthValueMeaning(status: String, state: String)
    requires IsStatus(status)
    ensures HealthValue(status, state) == 0 || HealthValue(status, state) == 1
    ensures HealthValue(status, state) == 1 <==> status == "Up" && CaseVariantOf(state, "normal")
  {
    LowerEqualsIffCaseVariant(state, "normal");
    assert ToLower("Up") == "up";
    assert |ToLower("Down")| == 4;
  }

  lemma HealthValueExamples()
    ensures HealthValue("Up", "Normal") == 1
    ensures HealthValue("Up", "NORMAL") == 1
    ensures HealthValue("Up", "Leaving") == 0
    ensures forall state :: HealthValue("Down", state) == 0
  {
    assert ToLower("Up") == "up";
    assert ToLower("Normal") == "normal";
    assert ToLower("NORMAL") == "normal";
    assert ToLower("Leaving")[0] == 'l';
    assert |ToLower("Down")| == 4;
  }

  /** The record built from a matched line, before the load share is known
      (the second pass overwrites loadPercentageOfTotal). */
  function NodeFromRow(g: RingRow, reporter: Reporter): ObservedNode
    requires IsRowGrammar(g)
  {
    ObservedNode(
      reporter.ip, reporter.instanceId, reporter.zone,
      g.address, g.datacenter, g.rack, g.status, g.state,
      LoadBytes(g.loadValue, g.loadUnit),
      DecimalValue(ParseDecimal(g.ownership)),
      HealthValue(g.status, g.state),
      0.0)
  }

  predicate ReportedBy(n: ObservedNode, reporter: Reporter) {
    n.reporterNodeIp == reporter.ip && n.reporterInstanceId == reporter.instanceId && n.reporterZone == reporter.zone
  }

  /** The state of the first loop of parse_nodetool_ring_output: the records
      so far and whether the header has been passed. */
  datatype ParseState = ParseState(records: seq<ObservedNode>, headerSkipped: bool)

  const Start := ParseState([], false)

  /** The records one line after the header contributes: one when the pattern
      matches the stripped line, none otherwise. */
  function LineRecords(line: String, reporter: Reporter): seq<ObservedNode> {
    match MatchRow(Strip(line))
    case Some(g) => [NodeFromRow(g, reporter)]
    case None => []
  }

  /** One iteration of the first loop: a blank line changes nothing; before
      the header a line only tells whether it is the header; after it a line
      adds its records. */
  function StepLine(st: ParseState, line: String, reporter: Reporter): ParseState {
    var stripped := Strip(line);
    if stripped == [] then st
    else if !st.headerSkipped then ParseState(st.records, IsHeader(stripped))
    else ParseState(st.records + LineRecords(line, reporter), true)
  }

  /** The first loop run over a sequence of lines. */
  function ParseLines(st: ParseState, lines: seq<String>, reporter: Reporter): ParseState
    decreases |lines|
  {
    if lines == [] then st
    else StepLine(ParseLines(st, lines[..|lines| - 1], reporter), lines[|lines| - 1], reporter)
  }

  /** Running the loop over a + b is running it over a, then over b. */
  lemma {:induction false} ParseLinesAppend(st: ParseState, a: seq<String>, b: seq<String>, reporter: Reporter)
    ensures ParseLines(st, a + b, reporter) == ParseLines(ParseLines(st, a, reporter), b, reporter)
    decreases |b|
  {
    if b == [] {
      assert a + b == a;
    } else {
      var b' := b[..|b| - 1];
      assert (a + b)[..|a + b| - 1] == a + b';
      assert (a + b)[|a + b| - 1] == b[|b| - 1];
      ParseLinesAppend(st, a, b', reporter);
    }
  }

  /** The concatenation of each line's LineRecords, in input order. */
  function RecordsByLine(lines: seq<String>, reporter: Reporter): seq<ObservedNode>
    decreases |lines|
  {
    if lines == [] then [] else RecordsByLine(lines[..|lines| - 1], reporter) + LineRecords(lines[|lines| - 1], reporter)
  }

  /** After the header, each line contributes on its own: the records are
      those already found followed by each line's LineRecords, whatever the
      other lines hold. */
  lemma {:induction false} AfterHeader(records: seq<ObservedNode>, lines: seq<String>, reporter: Reporter)
    ensures ParseLines(ParseState(records, true), lines, reporter)
      == ParseState(records + RecordsByLine(lines, reporter), true)
    decreases |lines|
  {
    if lines != [] {
      var init := lines[..|lines| - 1];
      var last := lines[|lines| - 1];
      AfterHeader(records, init, reporter);
      var found := records + RecordsByLine(init, reporter);
      StepLineAfterHeader(found, last, reporter);
      assert RecordsByLine(lines, reporter) == RecordsByLine(init, reporter) + LineRecords(last, reporter);
      AppendAssociative(records, RecordsByLine(init, reporter), LineRecords(last, reporter));
    }
  }

  /** Concatenation regroups freely. */
  lemma AppendAssociative<T>(a: seq<T>, b: seq<T>, c: seq<T>)
    ensures a + b + c == a + (b + c)
  {
  }

  /** A blank line adds no record, so after the header every line adds
      exactly its LineRecords. */
  lemma StepLineAfterHeader(records: seq<ObservedNode>, line: String, reporter: Reporter)
    ensures StepLine(ParseState(records, true), line, reporter)
      == ParseState(records + LineRecords(line, reporter), true)
  {
    if Strip(line) == [] {
      assert Tokens([]) == [];
      assert LineRecords(line, reporter) == [];
      assert records + [] == records;
    }
  }

  /** Before the header, nothing is recorded, and the header flag is set
      exactly when some line so far was the header. */
  lemma {:induction false} BeforeHeader(lines: seq<String>, reporter: Reporter)
    requires forall i :: 0 <= i < |lines| ==> !IsHeader(Strip(lines[i]))
    ensures ParseLines(Start, lines, reporter) == Start
    decreases |lines|
  {
    if lines != [] {
      BeforeHeader(lines[..|lines| - 1], reporter);
    }
  }

  /** Every line up to and including the first header line is skipped, and
      the records are those of the lines after it. */
  lemma SkipsThroughHeader(lines: seq<String>, h: nat, reporter: Reporter)
    requires h < |lines| && IsHeader(Strip(lines[h]))
    requires forall i :: 0 <= i < h ==> !IsHeader(Strip(lines[i]))
    ensures ParseLines(Start, lines, reporter).records == RecordsByLine(lines[h + 1..], reporter)
  {
    assert lines == lines[..h] + [lines[h]] + lines[h + 1..];
    ParseLinesAppend(Start, lines[..h] + [lines[h]], lines[h + 1..], reporter);
    ParseLinesAppend(Start, lines[..h], [lines[h]], reporter);
    BeforeHeader(lines[..h], reporter);
    assert [lines[h]][..0] == [];
    assert Strip(lines[h]) != [] by {
      assert !Contains([], "Address");
    }
    assert ParseLines(Start, lines[..h] + [lines[h]], reporter) == ParseState([], true);
    AfterHeader([], lines[h + 1..], reporter);
  }

  /** Without a header line the result is empty, not an error. */
  lemma NoHeaderNoRecords(lines: seq<String>, reporter: Reporter)
    requires forall i :: 0 <= i < |lines| ==> !IsHeader(Strip(lines[i]))
    ensures ParseLines(Start, lines, reporter).records == []
  {
    BeforeHeader(lines, reporter);
  }

  /** Every record carries the given reporter's identity. */
  predicate AllReportedBy(records: seq<ObservedNode>, reporter: Reporter) {
    forall k :: 0 <= k < |records| ==> ReportedBy(records[k], reporter)
  }

  lemma StepLineReportedBy(st: ParseState, line: String, reporter: Reporter)
    requires AllReportedBy(st.records, reporter)
    ensures AllReportedBy(StepLine(st, line, reporter).records, reporter)
  {
    var m := MatchRow(Strip(line));
    if m.Some? {
      assert ReportedBy(NodeFromRow(m.value, reporter), reporter);
    }
  }

  /** Every record carries the reporter's identity, unchanged. */
  lemma {:induction false} RecordsReportedBy(st: ParseState, lines: seq<String>, reporter: Reporter)
    requires AllReportedBy(st.records, reporter)
    ensures AllReportedBy(ParseLines(st, lines, reporter).records, reporter)
    decreases |lines|
  {
    if lines != [] {
      var init := lines[..|lines| - 1];
      RecordsReportedBy(st, init, reporter);
      StepLineReportedBy(ParseLines(st, init, reporter), lines[|lines| - 1], reporter);
    }
  }

  // ---------------------------------------------------------------------------
  // Load share of the report's total

  function TotalLoad(nodes: seq<ObservedNode>): nat {
    if nodes == [] then 0 else TotalLoad(nodes[..|nodes| - 1]) + nodes[|nodes| - 1].loadBytes
  }

  /** `load / total * 100.0`, or 0.0 when the total is 0. */
  function Share(load: nat, total: nat): real {
    if total > 0 then (load as real / total as real) * 100.0 else 0.0
  }

  /** The second pass: every record gets its share of the total load. */
  function WithLoadPercentages(nodes: seq<ObservedNode>): seq<ObservedNode> {
    var total := TotalLoad(nodes);
    seq(|nodes|, i requires 0 <= i < |nodes| => nodes[i].(loadPercentageOfTotal := Share(nodes[i].loadBytes, total)))
  }

  function SumPercentages(nodes: seq<ObservedNode>): real {
    if nodes == [] then 0.0 else SumPercentages(nodes[..|nodes| - 1]) + nodes[|nodes| - 1].loadPercentageOfTotal
  }

  lemma {:induction false} LoadAtMostTotal(nodes: seq<ObservedNode>, i: nat)
    requires i < |nodes|
    ensures nodes[i].loadBytes <= TotalLoad(nodes)
  {
    if i < |nodes| - 1 {
      LoadAtMostTotal(nodes[..|nodes| - 1], i);
    }
  }

  /** The second pass changes nothing but the load share, keeps the order,
      and every share lies in [0, 100]; a zero total gives every record 0. */
  lemma LoadPercentagesBounded(nodes: seq<ObservedNode>)
    ensures var r := WithLoadPercentages(nodes);
      && |r| == |nodes|
      && (forall i :: 0 <= i < |r| ==> r[i] == nodes[i].(loadPercentageOfTotal := r[i].loadPercentageOfTotal))
      && (forall i :: 0 <= i < |r| ==> 0.0 <= r[i].loadPercentageOfTotal <= 100.0)
      && (TotalLoad(nodes) == 0 ==> forall i :: 0 <= i < |r| ==> r[i].loadPercentageOfTotal == 0.0)
  {
    var r := WithLoadPercentages(nodes);
    var total := TotalLoad(nodes);
    forall i | 0 <= i < |r| ensures 0.0 <= r[i].loadPercentageOfTotal <= 100.0 {
      LoadAtMostTotal(nodes, i);
      if total > 0 {
        ShareBounded(nodes[i].loadBytes, total);
      }
    }
  }

  lemma ShareBounded(load: nat, total: nat)
    requires 0 < total && load <= total
    ensures 0.0 <= Share(load, total) <= 100.0
  {
    var q := load as real / total as real;
    assert q * total as real == load as real;
    assert q <= 1.0;
  }

  /** With a positive total the shares add up to 100. */
  lemma LoadPercentagesSumTo100(nodes: seq<ObservedNode>)
    requires TotalLoad(nodes) > 0
    ensures SumPercentages(WithLoadPercentages(nodes)) == 100.0
  {
    var total := TotalLoad(nodes);
    var r := WithLoadPercentages(nodes);
    PrefixSums(nodes, r, total, |nodes|);
    assert r[..|nodes|] == r;
    assert nodes[..|nodes|] == nodes;
    WholeShare(total);
  }

  lemma WholeShare(total: nat)
    requires total > 0
    ensures total as real * 100.0 / total as real == 100.0
  {
  }

  lemma {:induction false} PrefixSums(nodes: seq<ObservedNode>, r: seq<ObservedNode>, total: nat, k: nat)
    requires total > 0 && |r| == |nodes| && k <= |nodes|
    requires forall i :: 0 <= i < |r| ==> r[i].loadPercentageOfTotal == Share(nodes[i].loadBytes, total)
    ensures SumPercentages(r[..k]) == TotalLoad(nodes[..k]) as real * 100.0 / total as real
  {
    if k > 0 {
      PrefixSums(nodes, r, total, k - 1);
      assert r[..k][..k - 1] == r[..k - 1];
      assert nodes[..k][..k - 1] == nodes[..k - 1];
      assert SumPercentages(r[..k]) == SumPercentages(r[..k - 1]) + Share(nodes[k - 1].loadBytes, total);
      assert TotalLoad(nodes[..k]) == TotalLoad(nodes[..k - 1]) + nodes[k - 1].loadBytes;
      ShareAdds(TotalLoad(nodes[..k - 1]), nodes[k - 1].loadBytes, total);
    } else {
      assert r[..0] == [];
      assert nodes[..0] == [];
    }
  }

  lemma ShareAdds(a: nat, b: nat, total: nat)
    requires total > 0
    ensures (a + b) as real * 100.0 / total as real == a as real * 100.0 / total as real + Share(b, total)
  {
    var x, y, t := a as real, b as real, total as real;
    assert (x + y) * 100.0 / t == x * 100.0 / t + (y / t) * 100.0;
  }

  /** Loads of 100, 300 and 0 bytes get 25, 75 and 0 percent. */
  lemma LoadPercentagesExample(nodes: seq<ObservedNode>)
    requires |nodes| == 3
    requires nodes[0].loadBytes == 100 && nodes[1].loadBytes == 300 && nodes[2].loadBytes == 0
    ensures var r := WithLoadPercentages(nodes);
      r[0].loadPercentageOfTotal == 25.0 && r[1].loadPercentageOfTotal == 75.0 && r[2].loadPercentageOfTotal == 0.0
  {
    assert nodes[..1][..0] == [];
    assert TotalLoad(nodes[..1]) == 100;
    assert nodes[..2][..1] == nodes[..1];
    assert TotalLoad(nodes[..2]) == 400;
    assert nodes[..3 - 1] == nodes[..2];
    assert TotalLoad(nodes) == 400;
  }

  /** The text's lines as main.py splits them: strip(), then splitlines(). */
  function RingLines(ringOutput: String): seq<String> {
    SplitLines(Strip(ringOutput))
  }

  /** What parse_nodetool_ring_output returns. */
  function ParseRing(ringOutput: String, reporter: Reporter): seq<ObservedNode> {
    WithLoadPercentages(ParseLines(Start, RingLines(ringOutput), reporter).records)
  }

  /** Every returned record carries the reporter's identity, unchanged. */
  lemma ParseRingReportedBy(ringOutput: String, reporter: Reporter)
    ensures AllReportedBy(ParseRing(ringOutput, reporter), reporter)
  {
    var records := ParseLines(Start, RingLines(ringOutput), reporter).records;
    RecordsReportedBy(Start, RingLines(ringOutput), reporter);
    LoadPercentagesBounded(records);
  }

  /** parse_nodetool_ring_output: a loop over the lines with a header flag
      that appends one record per matching line, then a loop that sets each
      record's share of the total load. */
  method ParseNodetoolRingOutput(ringOutput: String, reporter: Reporter) returns (nodes: seq<ObservedNode>)
    ensures nodes == ParseRing(ringOutput, reporter)
    ensures AllReportedBy(nodes, reporter)
  {
    var lines := SplitLines(Strip(ringOutput));
    var parsed: seq<ObservedNode> := [];
    var headerSkipped := false;
    for i := 0 to |lines|
      invariant ParseState(parsed, headerSkipped) == ParseLines(Start, lines[..i], reporter)
    {
      assert lines[..i + 1][..i] == lines[..i];
      var lineStripped := Strip(lines[i]);
      if lineStripped == [] {
        continue;
      }
      if !headerSkipped {
        if IsHeader(lineStripped) {
          headerSkipped := true;
        }
        continue;
      }
      var m := MatchRow(lineStripped);
      if m.Some? {
        parsed := parsed + [NodeFromRow(m.value, reporter)];
      }
    }
    assert lines[..|lines|] == lines;
    RecordsReportedBy(Start, lines, reporter);
    LoadPercentagesBounded(parsed);
    nodes := AddLoadPercentages(parsed);
  }

  /** The second loop of parse_nodetool_ring_output: each record in turn gets
      its share of the total load. */
  method AddLoadPercentages(rows: seq<ObservedNode>) returns (nodes: seq<ObservedNode>)
    ensures nodes == WithLoadPercentages(rows)
  {
    nodes := rows;
    var total := TotalLoad(rows);
    for j := 0 to |nodes|
      invariant |nodes| == |rows|
      invariant forall k :: 0 <= k < j ==> nodes[k] == WithLoadPercentages(rows)[k]
      invariant forall k :: j <= k < |nodes| ==> nodes[k] == rows[k]
    {
      if total > 0 {
        nodes := nodes[j := nodes[j].(loadPercentageOfTotal := (nodes[j].loadBytes as real / total as real) * 100.0)];
      } else {
        nodes := nodes[j := nodes[j].(loadPercentageOfTotal := 0.0)];
      }
    }
  }
}
