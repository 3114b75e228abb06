/** The report stage: the policy validation results of the snapshot are fetched,
    reduced to the first row of each policy, turned into error annotations, and
    shaped into the JSON report and a SARIF 2.1.0 log. */
module Results {
  import opened Outcomes
  import opened Text
  import opened Constants
  import opened Utils
  import opened Resolve

  /** A row of the policy validation result table; `output` is the raw
      `policy_execution.output` value. */
  datatype ResultRow = ResultRow(applicationName: string, policyName: string, snapshotName: string,
                                 impactedNode: string, nodePath: string, output: JsValue)

  /** What `JSON.parse` makes of a policy output: null, a string, an object with its
      `decision` (None unless it is a string) and `failures`, or anything else. */
  datatype PolicyOutput =
    | ParsedNull
    | ParsedString(s: string)
    | ParsedObject(decision: Option<string>, failures: JsValue)
    | ParsedOther

  /** The reply of the results GET: it threw, it had no result list, or the rows. */
  datatype ResultsReply = ResultsThrew | NoResultList | ResultList(rows: seq<ResultRow>)

  /** An error annotation: a non-compliant policy, with its failure count when it has
      failures, or a policy without execution output. */
  datatype Annotation = NonCompliant(policyName: string, failureCount: Option<nat>) | NotExecuted(policyName: string)

  /** The JSON report set as the `validation-results` output and written to
      `validation-results.json`. */
  datatype Report = Report(sysId: string, name: string, deployableName: string, published: bool,
                           validation: string, results: seq<ResultRow>)

  /** SARIF section 3.49 reportingDescriptor, as used for `rules`. */
  datatype SarifRule = SarifRule(id: string, name: string, shortDescription: string, fullDescription: string, level: string)

  /** SARIF section 3.27 result, with its single location's artifact uri. */
  datatype SarifResult = SarifResult(ruleId: string, kind: string, message: JsValue, uri: string)

  /** The SARIF log written to `validation-results.sarif`: one run whose tool driver
      carries the rules. */
  datatype SarifLog = SarifLog(schema: string, version: string, driverName: string, driverVersion: string,
                               driverFullName: string, rules: seq<SarifRule>, results: seq<SarifResult>)

  datatype Outputs = Outputs(report: Report, sarif: SarifLog)

  /** What the row loop produced: the annotations it emitted, and the outputs or the
      error it stopped on. */
  datatype Generated = Generated(annotations: seq<Annotation>, outcome: Result<Outputs>)

  const SARIF_SCHEMA: string := "https://raw.githubusercontent.com/oasis-tcs/sarif-spec/master/Schemata/sarif-schema-2.1.0.json"
  const SARIF_VERSION: string := "2.1.0"
  const DRIVER_NAME: string := "Devops config policy content pack"
  const DRIVER_VERSION: string := "1.2.0"
  const NON_COMPLIANT: string := "non_compliant"

  /** JavaScript truthiness of a raw value. */
  predicate Truthy(v: JsValue) {
    !Falsy(v)
  }

  /** What `JSON.parse` does to the raw values it can be handed without looking at
      their text: null parses to null, and undefined and the empty string throw. */
  predicate JsonParse(parse: JsValue -> Option<PolicyOutput>) {
    parse(Null) == Some(ParsedNull) && parse(Undefined) == None && parse(Str("")) == None
  }

  /** The `decision` of a parsed output; null, like any non-object, has none. */
  function Decision(p: PolicyOutput): Option<string> {
    if p.ParsedObject? then p.decision else None
  }

  /** `isEmpty` of a parsed output. */
  predicate IsEmptyOutput(p: PolicyOutput) {
    p.ParsedNull? || (p.ParsedString? && AllWhitespace(p.s))
  }

  /** `failures.length`, present only when `failures` is not an empty array. */
  function FailureCount(failures: JsValue): (c: Option<nat>)
    ensures c.Some? <==> !IsArrayEmpty(failures)
  {
    match failures
    case Arr(items) => if items == [] then None else Some(|items|)
    case Str(s) => Some(|s|)
    case _ => None
  }

  /** The annotation for the first row of a policy: non-compliant with the failure
      count when there are failures, or not executed when there is no output. */
  function Annotate(policyName: string, p: PolicyOutput): (r: seq<Annotation>)
    ensures |r| <= 1
    ensures (|r| == 1 && r[0].NonCompliant?) <==> Decision(p) == Some(NON_COMPLIANT)
    ensures |r| == 1 && r[0].NonCompliant? ==>
      r[0] == NonCompliant(policyName, r[0].failureCount) && (r[0].failureCount.Some? <==> !IsArrayEmpty(p.failures))
    ensures r == [NotExecuted(policyName)] <==> Decision(p) != Some(NON_COMPLIANT) && IsEmptyOutput(p)
  {
    if Decision(p) == Some(NON_COMPLIANT) then [NonCompliant(policyName, FailureCount(p.failures))]
    else if IsEmptyOutput(p) then [NotExecuted(policyName)]
    else []
  }

  /** The annotation step as written: the source reads `decision` of the parsed
      output directly, so a null output throws a TypeError before `isEmpty` can
      report it as not executed. */
  function AnnotateAsWritten(policyName: string, p: PolicyOutput): Result<seq<Annotation>> {
    if p.ParsedNull? then Err(PropertyOfNull(policyName)) else Ok(Annotate(policyName, p))
  }

  /** The two differ exactly on a null output: as written it fails the stage, while
      the intended step reports the policy as not executed. */
  lemma NullOutputAnnotation(policyName: string, p: PolicyOutput)
    ensures AnnotateAsWritten(policyName, ParsedNull) == Err(PropertyOfNull(policyName))
    ensures Annotate(policyName, ParsedNull) == [NotExecuted(policyName)]
    ensures p != ParsedNull ==> AnnotateAsWritten(policyName, p) == Ok(Annotate(policyName, p))
  {
  }

  // ----- The first row per policy name, defined by position -----

  /** Row i is the first of its policy. */
  predicate IsFirst(rows: seq<ResultRow>, i: nat)
    requires i < |rows|
  {
    forall k :: 0 <= k < i ==> rows[k].policyName != rows[i].policyName
  }

  /** The positions below n of the first rows of their policies, in increasing order. */
  function FirstIndices(rows: seq<ResultRow>, n: nat): (ix: seq<nat>)
    requires n <= |rows|
    ensures |ix| <= n
    ensures forall k :: 0 <= k < |ix| ==> ix[k] < n && IsFirst(rows, ix[k])
    ensures forall k, l :: 0 <= k < l < |ix| ==> ix[k] < ix[l]
    ensures forall i :: 0 <= i < n && IsFirst(rows, i) ==> i in ix
    ensures |ix| == n <==> forall i :: 0 <= i < n ==> IsFirst(rows, i)
  {
    if n == 0 then []
    else
      var prev := FirstIndices(rows, n - 1);
      if IsFirst(rows, n - 1) then prev + [n - 1] else prev
  }

  /** The first row of each policy among the first n rows, in order. */
  function Firsts(rows: seq<ResultRow>, n: nat): seq<ResultRow>
    requires n <= |rows|
  {
    if n == 0 then []
    else Firsts(rows, n - 1) + if IsFirst(rows, n - 1) then [rows[n - 1]] else []
  }

  /** They are the rows at the first positions, one for each. */
  lemma {:induction false} FirstsAtIndices(rows: seq<ResultRow>, n: nat)
    requires n <= |rows|
    ensures |Firsts(rows, n)| == |FirstIndices(rows, n)|
    ensures forall k :: 0 <= k < |Firsts(rows, n)| ==> Firsts(rows, n)[k] == rows[FirstIndices(rows, n)[k]]
  {
    if n > 0 {
      FirstsAtIndices(rows, n - 1);
    }
  }

  /** The first rows have pairwise distinct policy names. */
  lemma FirstsDistinct(rows: seq<ResultRow>)
    ensures var f := Firsts(rows, |rows|);
      forall k, l :: 0 <= k < l < |f| ==> f[k].policyName != f[l].policyName
  {
    FirstsAtIndices(rows, |rows|);
    var ix := FirstIndices(rows, |rows|);
    forall k, l | 0 <= k < l < |ix|
      ensures rows[ix[k]].policyName != rows[ix[l]].policyName
    {
      assert IsFirst(rows, ix[l]);
    }
  }

  /** Every row's policy has its first row among them. */
  lemma {:induction false} FirstsCover(rows: seq<ResultRow>, i: nat)
    requires i < |rows|
    ensures exists k :: 0 <= k < |Firsts(rows, |rows|)| && Firsts(rows, |rows|)[k].policyName == rows[i].policyName
    decreases i
  {
    FirstsAtIndices(rows, |rows|);
    var ix := FirstIndices(rows, |rows|);
    if IsFirst(rows, i) {
      var k :| 0 <= k < |ix| && ix[k] == i;
      assert Firsts(rows, |rows|)[k] == rows[i];
    } else {
      var j :| 0 <= j < i && rows[j].policyName == rows[i].policyName;
      FirstsCover(rows, j);
    }
  }

  /** Every row is kept exactly when no two rows share a policy name. */
  lemma FirstsKeepAllIff(rows: seq<ResultRow>)
    ensures |Firsts(rows, |rows|)| == |rows| <==>
      forall i, j :: 0 <= i < j < |rows| ==> rows[i].policyName != rows[j].policyName
  {
    FirstsAtIndices(rows, |rows|);
    if forall i :: 0 <= i < |rows| ==> IsFirst(rows, i) {
      forall i, j | 0 <= i < j < |rows|
        ensures rows[i].policyName != rows[j].policyName
      {
        assert IsFirst(rows, j);
      }
    }
  }

  // ----- The row loop as a scan over the rows -----

  /** The policy names of some rows. */
  function Names(rows: seq<ResultRow>): set<string> {
    if rows == [] then {} else Names(rows[..|rows| - 1]) + {rows[|rows| - 1].policyName}
  }

  /** The state of the loop: the rows kept, the annotations emitted, and the error it
      stopped on, if any. */
  datatype Scan = Scan(kept: seq<ResultRow>, annotations: seq<Annotation>, failure: Option<Error>)

  /** One turn of the `forEach`: the output is parsed first (a parse error stops
      the stage); a row of an unseen policy is then kept and annotated as written,
      so that a null output stops the stage with a TypeError. */
  function StepRow(s: Scan, row: ResultRow, parse: JsValue -> Option<PolicyOutput>): Scan {
    match parse(row.output)
    case None => s.(failure := Some(InvalidPolicyOutput(row.policyName)))
    case Some(p) =>
      if row.policyName in Names(s.kept) then s
      else
        match AnnotateAsWritten(row.policyName, p)
        case Err(e) => Scan(s.kept + [row], s.annotations, Some(e))
        case Ok(a) => Scan(s.kept + [row], s.annotations + a, None)
  }

  /** The loop over the first n rows. */
  function ScanRows(rows: seq<ResultRow>, parse: JsValue -> Option<PolicyOutput>, n: nat): Scan
    requires n <= |rows|
  {
    if n == 0 then Scan([], [], None)
    else
      var s := ScanRows(rows, parse, n - 1);
      if s.failure.Some? then s else StepRow(s, rows[n - 1], parse)
  }

  /** The annotations of the kept rows, in order. */
  function AnnotationsOf(kept: seq<ResultRow>, parse: JsValue -> Option<PolicyOutput>): seq<Annotation> {
    if kept == [] then []
    else
      var last := kept[|kept| - 1];
      AnnotationsOf(kept[..|kept| - 1], parse)
      + match parse(last.output) case None => [] case Some(p) => Annotate(last.policyName, p)
  }

  /** Once the loop has stopped on an error, later rows change nothing. */
  lemma {:induction false} ScanStops(rows: seq<ResultRow>, parse: JsValue -> Option<PolicyOutput>, i: nat, n: nat)
    requires i <= n <= |rows|
    requires ScanRows(rows, parse, i).failure.Some?
    ensures ScanRows(rows, parse, n) == ScanRows(rows, parse, i)
    decreases n - i
  {
    if i < n {
      ScanStops(rows, parse, i, n - 1);
      ScanStopped(rows, parse, n);
    }
  }

  /** A stopped loop stays as it is for one more row. */
  lemma ScanStopped(rows: seq<ResultRow>, parse: JsValue -> Option<PolicyOutput>, n: nat)
    requires 0 < n <= |rows|
    requires ScanRows(rows, parse, n - 1).failure.Some?
    ensures ScanRows(rows, parse, n) == ScanRows(rows, parse, n - 1)
  {
  }

  /** Row i stops the loop when it is reached: its output does not parse, or it is
      the first row of its policy and its output parses to null. */
  predicate Stops(rows: seq<ResultRow>, parse: JsValue -> Option<PolicyOutput>, i: nat)
    requires i < |rows|
  {
    parse(rows[i].output).None? || (IsFirst(rows, i) && parse(rows[i].output) == Some(ParsedNull))
  }

  /** The error a stopping row throws: the parse error, or else the TypeError. */
  function StopError(row: ResultRow, parse: JsValue -> Option<PolicyOutput>): Error {
    if parse(row.output).None? then InvalidPolicyOutput(row.policyName) else PropertyOfNull(row.policyName)
  }

  /** Row i is the first row that stops the loop. */
  predicate FirstStop(rows: seq<ResultRow>, parse: JsValue -> Option<PolicyOutput>, i: nat)
    requires i < |rows|
  {
    Stops(rows, parse, i) && forall m :: 0 <= m < i ==> !Stops(rows, parse, m)
  }

  /** One turn from a running loop stops it exactly on an output that does not
      parse, or on a null output of an unseen policy, with that row's error. */
  lemma StepFailure(s: Scan, row: ResultRow, parse: JsValue -> Option<PolicyOutput>)
    requires s.failure.None?
    ensures StepRow(s, row, parse).failure.None? <==>
      parse(row.output).Some? && (row.policyName !in Names(s.kept) ==> parse(row.output) != Some(ParsedNull))
    ensures StepRow(s, row, parse).failure.Some? ==> StepRow(s, row, parse).failure == Some(StopError(row, parse))
  {
  }

  /** From a running loop, row n - 1 stops the loop exactly when it is a stopping
      row, and with its error. */
  lemma ScanStep(rows: seq<ResultRow>, parse: JsValue -> Option<PolicyOutput>, n: nat)
    requires 0 < n <= |rows|
    requires ScanRows(rows, parse, n - 1).failure.None?
    ensures ScanRows(rows, parse, n).failure.None? <==> !Stops(rows, parse, n - 1)
    ensures ScanRows(rows, parse, n).failure.Some? ==>
      ScanRows(rows, parse, n).failure == Some(StopError(rows[n - 1], parse))
  {
    var s := ScanRows(rows, parse, n - 1);
    ScanKeepsFirsts(rows, parse, n - 1);
    FirstIffUnseen(rows, n - 1, n - 1);
    assert rows[n - 1].policyName in Names(s.kept) <==> !IsFirst(rows, n - 1);
    StepFailure(s, rows[n - 1], parse);
  }

  /** The loop over the first n rows stops exactly when one of them stops it, with
      the error of the first such row. */
  lemma {:induction false} ScanFailure(rows: seq<ResultRow>, parse: JsValue -> Option<PolicyOutput>, n: nat)
    requires n <= |rows|
    ensures ScanRows(rows, parse, n).failure.None? <==> forall i :: 0 <= i < n ==> !Stops(rows, parse, i)
    ensures ScanRows(rows, parse, n).failure.Some? ==>
      exists i :: 0 <= i < n && FirstStop(rows, parse, i)
        && ScanRows(rows, parse, n).failure == Some(StopError(rows[i], parse))
  {
    if n > 0 {
      ScanFailure(rows, parse, n - 1);
      if ScanRows(rows, parse, n - 1).failure.None? {
        ScanStep(rows, parse, n);
        if Stops(rows, parse, n - 1) {
          assert FirstStop(rows, parse, n - 1);
        }
      }
    }
  }

  /** The policy names of the first n rows. */
  function NamesUpTo(rows: seq<ResultRow>, n: nat): set<string>
    requires n <= |rows|
  {
    if n == 0 then {} else NamesUpTo(rows, n - 1) + {rows[n - 1].policyName}
  }

  /** A row is the first of its policy exactly when its name is not among the
      names before it. */
  lemma {:induction false} FirstIffUnseen(rows: seq<ResultRow>, n: nat, i: nat)
    requires i <= n < |rows|
    ensures (forall k :: 0 <= k < i ==> rows[k].policyName != rows[n].policyName)
      <==> rows[n].policyName !in NamesUpTo(rows, i)
  {
    if i > 0 {
      FirstIffUnseen(rows, n, i - 1);
    }
  }

  lemma NamesAppend(rows: seq<ResultRow>, row: ResultRow)
    ensures Names(rows + [row]) == Names(rows) + {row.policyName}
  {
    assert (rows + [row])[..|rows|] == rows;
  }

  /** When it has not stopped, the loop keeps exactly the first row of each policy and
      has seen exactly the policy names of the rows so far. */
  lemma {:induction false} ScanKeepsFirsts(rows: seq<ResultRow>, parse: JsValue -> Option<PolicyOutput>, n: nat)
    requires n <= |rows|
    requires ScanRows(rows, parse, n).failure.None?
    ensures ScanRows(rows, parse, n).kept == Firsts(rows, n)
    ensures Names(ScanRows(rows, parse, n).kept) == NamesUpTo(rows, n)
  {
    if n > 0 {
      var s := ScanRows(rows, parse, n - 1);
      var row := rows[n - 1];
      assert s.failure.None? && parse(row.output).Some?;
      assert ScanRows(rows, parse, n) == StepRow(s, row, parse);
      ScanKeepsFirsts(rows, parse, n - 1);
      FirstIffUnseen(rows, n - 1, n - 1);
      assert NamesUpTo(rows, n) == NamesUpTo(rows, n - 1) + {row.policyName};
      if IsFirst(rows, n - 1) {
        NamesAppend(s.kept, row);
        assert ScanRows(rows, parse, n).kept == s.kept + [row];
      } else {
        assert ScanRows(rows, parse, n) == s;
      }
    }
  }

  /** When it has not stopped, the loop has emitted the annotations of the kept rows. */
  lemma {:induction false} ScanAnnotations(rows: seq<ResultRow>, parse: JsValue -> Option<PolicyOutput>, n: nat)
    requires n <= |rows|
    requires ScanRows(rows, parse, n).failure.None?
    ensures ScanRows(rows, parse, n).annotations == AnnotationsOf(ScanRows(rows, parse, n).kept, parse)
  {
    if n > 0 {
      var s := ScanRows(rows, parse, n - 1);
      var row := rows[n - 1];
      assert s.failure.None?;
      ScanAnnotations(rows, parse, n - 1);
      StepFailure(s, row, parse);
      var p := parse(row.output).value;
      if row.policyName !in Names(s.kept) {
        assert ScanRows(rows, parse, n) == Scan(s.kept + [row], s.annotations + Annotate(row.policyName, p), None);
        assert (s.kept + [row])[..|s.kept|] == s.kept;
      } else {
        assert ScanRows(rows, parse, n) == s;
      }
    }
  }

  // ----- SARIF -----

  /** The SARIF filter: a truthy output whose parse has decision `non_compliant`. */
  predicate IsNonCompliant(row: ResultRow, parse: JsValue -> Option<PolicyOutput>) {
    Truthy(row.output) && parse(row.output).Some? && Decision(parse(row.output).value) == Some(NON_COMPLIANT)
  }

  /** The kept rows that pass the filter, in order. */
  function NonCompliantRows(kept: seq<ResultRow>, parse: JsValue -> Option<PolicyOutput>): (r: seq<ResultRow>)
    ensures |r| <= |kept|
  {
    if kept == [] then []
    else
      var last := kept[|kept| - 1];
      NonCompliantRows(kept[..|kept| - 1], parse) + if IsNonCompliant(last, parse) then [last] else []
  }

  function RuleId(row: ResultRow): string {
    row.snapshotName + ":" + row.policyName
  }

  function RuleFor(row: ResultRow): SarifRule {
    SarifRule(RuleId(row), row.policyName, RuleId(row),
      "application.name: " + row.applicationName + ", snapshot.name: " + row.snapshotName, "error")
  }

  function ResultFor(row: ResultRow): SarifResult {
    SarifResult(RuleId(row), "fail", row.output, row.snapshotName)
  }

  /** The SARIF log of the kept rows. */
  function SarifOf(kept: seq<ResultRow>, parse: JsValue -> Option<PolicyOutput>): SarifLog {
    var failing := NonCompliantRows(kept, parse);
    SarifLog(SARIF_SCHEMA, SARIF_VERSION, DRIVER_NAME, DRIVER_VERSION, DRIVER_NAME,
      seq(|failing|, i requires 0 <= i < |failing| => RuleFor(failing[i])),
      seq(|failing|, i requires 0 <= i < |failing| => ResultFor(failing[i])))
  }

  /** Rules and results pair up one to one, in order, with matching ids; every result
      is a failure located at the snapshot and carrying the raw output, and every
      rule has level error. */
  lemma SarifShape(kept: seq<ResultRow>, parse: JsValue -> Option<PolicyOutput>)
    ensures var log := SarifOf(kept, parse);
      var failing := NonCompliantRows(kept, parse);
      && |log.rules| == |log.results| == |failing|
      && log.version == "2.1.0"
      && forall i :: 0 <= i < |failing| ==>
           && log.rules[i].id == log.results[i].ruleId == failing[i].snapshotName + ":" + failing[i].policyName
           && log.results[i].kind == "fail" && log.rules[i].level == "error"
           && log.results[i].message == failing[i].output && log.results[i].uri == failing[i].snapshotName
  {
  }

  /** The filter keeps exactly the non-compliant kept rows, in order. */
  lemma {:induction false} NonCompliantRowsMembers(kept: seq<ResultRow>, parse: JsValue -> Option<PolicyOutput>)
    ensures forall r :: r in NonCompliantRows(kept, parse) <==> r in kept && IsNonCompliant(r, parse)
  {
    if kept != [] {
      var init := kept[..|kept| - 1];
      NonCompliantRowsMembers(init, parse);
      assert kept == init + [kept[|kept| - 1]];
    }
  }

  /** The number of non-compliant annotations. */
  function CountNonCompliant(annotations: seq<Annotation>): nat {
    if annotations == [] then 0
    else CountNonCompliant(annotations[..|annotations| - 1]) + if annotations[|annotations| - 1].NonCompliant? then 1 else 0
  }

  lemma {:induction false} CountAppend(a: seq<Annotation>, b: seq<Annotation>)
    requires |b| <= 1
    ensures CountNonCompliant(a + b) == CountNonCompliant(a) + CountNonCompliant(b)
  {
    if |b| == 1 {
      assert (a + b)[..|a + b| - 1] == a;
      assert b[..0] == [];
    } else {
      assert a + b == a;
    }
  }

  /** One row's annotation is non-compliant exactly when the row passes the SARIF
      filter, for a parse that treats the falsy values as `JSON.parse` does. */
  lemma LastCount(row: ResultRow, parse: JsValue -> Option<PolicyOutput>)
    requires JsonParse(parse)
    requires parse(row.output).Some?
    ensures CountNonCompliant(Annotate(row.policyName, parse(row.output).value)) == if IsNonCompliant(row, parse) then 1 else 0
  {
    var p := parse(row.output).value;
    var a := Annotate(row.policyName, p);
    assert a == [] || a == [a[0]];
    if a != [] {
      assert a[..0] == [];
    }
    if Falsy(row.output) {
      assert Decision(p) == None;
    }
  }

  /** For rows whose outputs parse, with a parse that behaves like `JSON.parse` on
      the falsy values, each non-compliant annotation has one SARIF entry. */
  lemma {:induction false} AnnotationsMatchSarif(kept: seq<ResultRow>, parse: JsValue -> Option<PolicyOutput>)
    requires JsonParse(parse)
    requires forall k :: 0 <= k < |kept| ==> parse(kept[k].output).Some?
    ensures CountNonCompliant(AnnotationsOf(kept, parse)) == |NonCompliantRows(kept, parse)|
  {
    if kept != [] {
      var init := kept[..|kept| - 1];
      var last := kept[|kept| - 1];
      assert forall k :: 0 <= k < |init| ==> init[k] == kept[k];
      AnnotationsMatchSarif(init, parse);
      var p := parse(last.output).value;
      var a := Annotate(last.policyName, p);
      assert AnnotationsOf(kept, parse) == AnnotationsOf(init, parse) + a;
      CountAppend(AnnotationsOf(init, parse), a);
      LastCount(last, parse);
    }
  }

  // ----- The stage -----

  function ReportOf(snapshot: Snapshot, deployableName: string, validationStatus: string, publishStatus: bool,
                    kept: seq<ResultRow>): Report {
    Report(snapshot.sysId, snapshot.name, deployableName, snapshot.publishedStatus == "true" || publishStatus,
      validationStatus, kept)
  }

  /** What `generateValidationResults` does with the rows. */
  function GenerateSpec(rows: seq<ResultRow>, deployableName: string, snapshot: Snapshot, validationStatus: string,
                        publishStatus: bool, parse: JsValue -> Option<PolicyOutput>): Generated {
    var s := ScanRows(rows, parse, |rows|);
    if s.failure.Some? then Generated(s.annotations, Err(s.failure.value))
    else Generated(s.annotations, Ok(Outputs(ReportOf(snapshot, deployableName, validationStatus, publishStatus, s.kept), SarifOf(s.kept, parse))))
  }

  /** The `forEach` callback on one row: parse the output, then keep and annotate
      the row when its policy has not been seen. It does one turn of the scan. */
  method VisitRow(row: ResultRow, parse: JsValue -> Option<PolicyOutput>, seen: set<string>,
                  kept: seq<ResultRow>, annotations: seq<Annotation>)
    returns (seen': set<string>, kept': seq<ResultRow>, annotations': seq<Annotation>, failure: Option<Error>)
    requires seen == Names(kept)
    ensures Scan(kept', annotations', failure) == StepRow(Scan(kept, annotations, None), row, parse)
    ensures seen' == Names(kept')
  {
    seen', kept', annotations', failure := seen, kept, annotations, None;
    var parsed := parse(row.output);
    if parsed.None? {
      failure := Some(InvalidPolicyOutput(row.policyName));
      return;
    }
    if row.policyName !in seen {
      assert (kept + [row])[..|kept|] == kept;
      kept' := kept + [row];
      seen' := seen + {row.policyName};
      var p := parsed.value;
      if p.ParsedNull? {
        failure := Some(PropertyOfNull(row.policyName));
        return;
      }
      if Decision(p) == Some(NON_COMPLIANT) {
        annotations' := annotations + [NonCompliant(row.policyName, FailureCount(p.failures))];
      } else if IsEmptyOutput(p) {
        annotations' := annotations + [NotExecuted(row.policyName)];
      }
    }
  }

  /** Once the loop has stopped on an error, the stage ends with that error and the
      annotations emitted so far. */
  lemma StoppedSpec(rows: seq<ResultRow>, deployableName: string, snapshot: Snapshot, validationStatus: string,
                    publishStatus: bool, parse: JsValue -> Option<PolicyOutput>, n: nat)
    requires n <= |rows|
    requires ScanRows(rows, parse, n).failure.Some?
    ensures GenerateSpec(rows, deployableName, snapshot, validationStatus, publishStatus, parse)
      == Generated(ScanRows(rows, parse, n).annotations, Err(ScanRows(rows, parse, n).failure.value))
  {
    ScanStops(rows, parse, n, |rows|);
  }

  /** `generateValidationResults`: the `forEach` over the rows with the set of seen
      policy names, then the report and the SARIF log. */
  method GenerateValidationResults(rows: seq<ResultRow>, deployableName: string, snapshot: Snapshot, validationStatus: string,
                                   publishStatus: bool, parse: JsValue -> Option<PolicyOutput>)
    returns (annotations: seq<Annotation>, outcome: Result<Outputs>)
    ensures Generated(annotations, outcome) == GenerateSpec(rows, deployableName, snapshot, validationStatus, publishStatus, parse)
  {
    var seen: set<string> := {};
    var kept: seq<ResultRow> := [];
    annotations := [];
    var i := 0;
    while i < |rows|
      invariant i <= |rows|
      invariant ScanRows(rows, parse, i) == Scan(kept, annotations, None)
      invariant seen == Names(kept)
    {
      var failure;
      seen, kept, annotations, failure := VisitRow(rows[i], parse, seen, kept, annotations);
      if failure.Some? {
        StoppedSpec(rows, deployableName, snapshot, validationStatus, publishStatus, parse, i + 1);
        outcome := Err(failure.value);
        return;
      }
      i := i + 1;
    }
    outcome := Ok(Outputs(ReportOf(snapshot, deployableName, validationStatus, publishStatus, kept), SarifOf(kept, parse)));
  }

  /** The report of a run of the loop: the snapshot's id and name, `published` true
      for an already published snapshot and otherwise the publish result, and the
      given validation state. */
  lemma ReportFields(rows: seq<ResultRow>, deployableName: string, snapshot: Snapshot, validationStatus: string,
                     publishStatus: bool, parse: JsValue -> Option<PolicyOutput>)
    ensures var g := GenerateSpec(rows, deployableName, snapshot, validationStatus, publishStatus, parse);
      g.outcome.Ok? ==>
        var report := g.outcome.value.report;
        && report.sysId == snapshot.sysId && report.name == snapshot.name && report.deployableName == deployableName
        && report.published == (if snapshot.publishedStatus == "true" then true else publishStatus)
        && report.validation == validationStatus
  {
  }

  /** When no row stops the loop, every first row of a policy has an output that is
      truthy and parses to something other than null. */
  lemma KeptOutputsParse(rows: seq<ResultRow>, parse: JsValue -> Option<PolicyOutput>)
    requires JsonParse(parse)
    requires forall i :: 0 <= i < |rows| ==> !Stops(rows, parse, i)
    ensures var f := Firsts(rows, |rows|);
      forall k :: 0 <= k < |f| ==>
        Truthy(f[k].output) && parse(f[k].output).Some? && parse(f[k].output) != Some(ParsedNull)
  {
    FirstsAtIndices(rows, |rows|);
    var f := Firsts(rows, |rows|);
    var ix := FirstIndices(rows, |rows|);
    forall k | 0 <= k < |f|
      ensures Truthy(f[k].output) && parse(f[k].output).Some? && parse(f[k].output) != Some(ParsedNull)
    {
      assert f[k] == rows[ix[k]];
      assert !Stops(rows, parse, ix[k]);
    }
  }

  /** The loop fails exactly when some row stops it (an output that does not parse,
      or the first row of a policy whose output parses to null), with the error of
      the first such row; otherwise the report holds exactly the first row of each
      policy in response order, each of them with a truthy output that parses to
      something other than null (so the SARIF filters parse it without throwing),
      the annotations are those of the kept rows, and the SARIF log has one rule and
      one result per non-compliant annotation. */
  lemma GeneratedResults(rows: seq<ResultRow>, deployableName: string, snapshot: Snapshot, validationStatus: string,
                         publishStatus: bool, parse: JsValue -> Option<PolicyOutput>)
    requires JsonParse(parse)
    ensures var g := GenerateSpec(rows, deployableName, snapshot, validationStatus, publishStatus, parse);
      && (g.outcome.Err? <==> exists i :: 0 <= i < |rows| && Stops(rows, parse, i))
      && (g.outcome.Err? ==>
            exists i :: 0 <= i < |rows| && FirstStop(rows, parse, i) && g.outcome.error == StopError(rows[i], parse))
      && (g.outcome.Ok? ==>
            var kept := g.outcome.value.report.results;
            && kept == Firsts(rows, |rows|)
            && (forall k :: 0 <= k < |kept| ==>
                  Truthy(kept[k].output) && parse(kept[k].output).Some? && parse(kept[k].output) != Some(ParsedNull))
            && g.annotations == AnnotationsOf(kept, parse)
            && |g.outcome.value.sarif.rules| == |g.outcome.value.sarif.results| == CountNonCompliant(g.annotations))
  {
    ScanFailure(rows, parse, |rows|);
    var s := ScanRows(rows, parse, |rows|);
    if s.failure.None? {
      ScanKeepsFirsts(rows, parse, |rows|);
      ScanAnnotations(rows, parse, |rows|);
      KeptOutputsParse(rows, parse);
      AnnotationsMatchSarif(s.kept, parse);
    }
  }

  const RESULT_FIELDS: string := "snapshot.application_id.name,policy.name,snapshot.name,impacted_node.name,node_path,policy_execution.output"

  /** The results query: the latest results of the snapshot's validation. */
  function ResultsQuery(instanceUrl: string, sysId: string): (q: TableQuery)
    ensures q.endpoint == instanceUrl + CDM_POLICY_VALIDATION_RESULT
  {
    TableQuery(instanceUrl + CDM_POLICY_VALIDATION_RESULT, [("snapshot.sys_id", sysId), ("is_latest", "true")], None,
      RESULT_FIELDS, None)
  }

  /** The results query selects the snapshot's latest results, unsorted and
      unlimited. */
  lemma ResultsQueryShape(instanceUrl: string, sysId: string)
    ensures EncodedQuery(ResultsQuery(instanceUrl, sysId)) == "snapshot.sys_id" + "=" + sysId + "^" + "is_latest" + "=" + "true"
    ensures ResultsQuery(instanceUrl, sysId).limit == None
  {
    TwoConditions("snapshot.sys_id", sysId, "is_latest", "true");
  }

  /** A run of `fetchValidationResults`: the query sent, whether the empty-results
      warning was emitted, and what the loop produced. */
  datatype ResultsRun = ResultsRun(query: TableQuery, warning: bool, generated: Generated)

  /** What `fetchValidationResults` does. */
  function ResultsSpec(instanceUrl: string, deployableName: string, validationStatus: string, publishStatus: bool,
                       snapshot: Snapshot, reply: ResultsReply, parse: JsValue -> Option<PolicyOutput>): ResultsRun {
    var query := ResultsQuery(instanceUrl, snapshot.sysId);
    match reply
    case ResultsThrew => ResultsRun(query, false, Generated([], Err(RequestFailed)))
    case NoResultList => ResultsRun(query, true, Generated([], Err(MissingResults)))
    case ResultList(rows) =>
      ResultsRun(query, rows == [], GenerateSpec(rows, deployableName, snapshot, validationStatus, publishStatus, parse))
  }

  /** `fetchValidationResults`: `fetchResults`, then `generateValidationResults`. */
  method FetchValidationResults(instanceUrl: string, deployableName: string, validationStatus: string, publishStatus: bool,
                                snapshot: Snapshot, reply: ResultsReply, parse: JsValue -> Option<PolicyOutput>)
    returns (run: ResultsRun)
    ensures run == ResultsSpec(instanceUrl, deployableName, validationStatus, publishStatus, snapshot, reply, parse)
  {
    var query := ResultsQuery(instanceUrl, snapshot.sysId);
    if reply.ResultsThrew? {
      return ResultsRun(query, false, Generated([], Err(RequestFailed)));
    }
    var warning := reply.NoResultList? || reply.rows == [];
    if reply.NoResultList? {
      return ResultsRun(query, warning, Generated([], Err(MissingResults)));
    }
    var annotations, outcome := GenerateValidationResults(reply.rows, deployableName, snapshot, validationStatus, publishStatus, parse);
    run := ResultsRun(query, warning, Generated(annotations, outcome));
  }

  /** An empty result list only warns: the stage still succeeds, with an empty report
      and an empty SARIF log; a reply without a result list warns and then fails. */
  lemma EmptyResultsOnlyWarn(instanceUrl: string, deployableName: string, validationStatus: string, publishStatus: bool,
                             snapshot: Snapshot, parse: JsValue -> Option<PolicyOutput>)
    ensures var run := ResultsSpec(instanceUrl, deployableName, validationStatus, publishStatus, snapshot, ResultList([]), parse);
      && run.warning && run.generated.annotations == [] && run.generated.outcome.Ok?
      && run.generated.outcome.value.report.results == []
      && run.generated.outcome.value.sarif.rules == [] && run.generated.outcome.value.sarif.results == []
    ensures var run := ResultsSpec(instanceUrl, deployableName, validationStatus, publishStatus, snapshot, NoResultList, parse);
      run.warning && run.generated.outcome == Err(MissingResults)
  {
  }
}
