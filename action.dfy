/** The action's entry point: the inputs are checked and normalised, then the stages
    run in order (upload, fetch, validate, publish, results), each able to stop the
    run, and any thrown error becomes the action's failure message. */
module Action {
  import opened Outcomes
  import opened Text
  import opened Constants
  import opened Utils
  import opened Upload
  import opened Resolve
  import opened Validate
  import opened Publish
  import opened Results

  /** The action's inputs, as `getInput` returns them. */
  datatype ActionInputs = ActionInputs(
    instanceUrl: string, target: string, appName: string, collectionName: string,
    deployableName: string, dataFormat: string, autoValidate: string, autoCommit: string,
    autoPublish: string, configFilePath: string, namePath: string, dataFormatAttributes: string,
    timeout: string, changesetNumber: string, terminateOnFailures: string)

  /** Everything the run gets from outside: `Number` on a string (None for NaN),
      `toLowerCase`, the files the glob finds, and the behaviour of each remote
      service. */
  datatype ActionEnv = ActionEnv(
    toNumber: string -> Option<real>,
    lower: string -> string,
    files: seq<string>,
    upload: UploadService,
    snapshot: SnapshotService,
    validate: ValidateService,
    publishPostSucceeds: bool,
    results: ResultsReply,
    parse: JsValue -> Option<PolicyOutput>)

  /** One stage run, with everything it did. */
  datatype Stage =
    | Uploaded(upload: UploadRun)
    | Fetched(fetch: ResolveRun)
    | Validated(validation: ValidateRun)
    | Published(publish: PublishRun)
    | Reported(report: ResultsRun)

  /** A run of the action: the stages in the order they ran, and the error whose
      message `setFailed` reports, if any. */
  datatype ActionRun = ActionRun(stages: seq<Stage>, failed: Option<Error>)

  /** Whether a stage ended without throwing. */
  predicate Succeeded(s: Stage) {
    match s
    case Uploaded(r) => r.outcome.Ok?
    case Fetched(r) => r.outcome.Ok?
    case Validated(r) => r.outcome.Ok?
    case Published(r) => r.outcome.Ok?
    case Reported(r) => r.generated.outcome.Ok?
  }

  /** The error a stage threw. */
  function ErrorOf(s: Stage): Error
    requires !Succeeded(s)
  {
    match s
    case Uploaded(r) => r.outcome.error
    case Fetched(r) => r.outcome.error
    case Validated(r) => r.outcome.error
    case Published(r) => r.outcome.error
    case Reported(r) => r.generated.outcome.error
  }

  /** The timeout check: a number greater than zero. */
  predicate ValidTimeout(n: Option<real>) {
    n.Some? && n.value > 0.0
  }

  /** `"true" === String(flag).toLowerCase()`. */
  predicate Flag(lower: string -> string, flag: string) {
    lower(flag) == "true"
  }

  /** The instance URL trimmed, without one trailing slash. */
  function NormalizeUrl(url: string): (r: string)
    ensures var t := Trim(url); |r| <= |t| <= |r| + 1 && r == t[..|r|]
    ensures |r| < |Trim(url)| <==> EndsWith(Trim(url), '/')
  {
    var t := Trim(url);
    if EndsWith(t, '/') then t[..|t| - 1] else t
  }

  /** A URL with no surrounding whitespace and no trailing slash. */
  predicate CanonicalUrl(url: string) {
    url == [] || (!IsWhitespace(url[0]) && !IsWhitespace(url[|url| - 1]) && url[|url| - 1] != '/')
  }

  /** A canonical URL is left as it is, and so is its form with a trailing slash. */
  lemma NormalizeCanonicalUrl(url: string)
    requires CanonicalUrl(url)
    ensures NormalizeUrl(url) == url
    ensures NormalizeUrl(url + "/") == url
  {
    var u := url + "/";
    assert TrimStart(u) == u;
    assert TrimEnd(u) == u;
    if url != [] {
      assert TrimStart(url) == url;
      assert TrimEnd(url) == url;
    }
  }

  /** The inputs of the upload stage. */
  function UploadInputsOf(inp: ActionInputs, url: string): UploadInputs {
    UploadInputs(url, inp.target, inp.appName, inp.deployableName, inp.collectionName, inp.dataFormat,
      inp.autoCommit, inp.configFilePath, inp.namePath, inp.changesetNumber, inp.dataFormatAttributes)
  }

  /** What each stage does once its inputs are known: the upload run, the fetch for
      the changeset the upload ended on, the validation of the fetched snapshot, the
      publish for that snapshot and validation state, and the results stage for the
      snapshot, the validation state and the publish status. */
  datatype StageRuns = StageRuns(
    upload: UploadRun,
    fetch: string -> ResolveRun,
    validate: Snapshot -> ValidateRun,
    publish: (Snapshot, string) -> PublishRun,
    results: (Snapshot, string, bool) -> ResultsRun)

  /** The stages of the action for its inputs, on the normalised URL. */
  function StagesOf(inp: ActionInputs, env: ActionEnv, timeout: real): StageRuns {
    var url := NormalizeUrl(inp.instanceUrl);
    StageRuns(
      UploadSpec(UploadInputsOf(inp, url), env.upload, env.files),
      changesetNumber => FetchSpec(SnapshotInputs(url, inp.appName, inp.deployableName, changesetNumber), env.snapshot),
      snapshot => ValidateSpec(url, snapshot, timeout, env.validate),
      (snapshot, status) => PublishSnapshot(url, status, snapshot, env.publishPostSucceeds),
      (snapshot, status, publishStatus) => ResultsSpec(url, inp.deployableName, status, publishStatus, snapshot, env.results, env.parse))
  }

  /** What `main` does. */
  function ActionSpec(inp: ActionInputs, env: ActionEnv): ActionRun {
    var timeout := env.toNumber(inp.timeout);
    if !ValidTimeout(timeout) then ActionRun([], Some(InvalidTimeout(inp.timeout)))
    else Flow(inp, env.lower, StagesOf(inp, env, timeout.value))
  }

  /** The stages after the timeout check. */
  function Flow(inp: ActionInputs, lower: string -> string, st: StageRuns): (run: ActionRun)
    ensures |run.stages| >= 1 && run.stages[0] == Uploaded(st.upload)
  {
    var up := st.upload;
    if up.outcome.Err? then ActionRun([Uploaded(up)], Some(up.outcome.error))
    else if !Flag(lower, inp.autoCommit) || !Flag(lower, inp.autoValidate) then ActionRun([Uploaded(up)], None)
    else AfterUpload(inp, lower, st, up.outcome.value, [Uploaded(up)])
  }

  /** The fetch stage, on the changeset the upload ended on. */
  function AfterUpload(inp: ActionInputs, lower: string -> string, st: StageRuns, changesetNumber: string,
                       done: seq<Stage>): ActionRun {
    var f := st.fetch(changesetNumber);
    if f.outcome.Err? then ActionRun(done + [Fetched(f)], Some(f.outcome.error))
    else AfterFetch(inp, lower, st, f.outcome.value, done + [Fetched(f)])
  }

  /** The validate stage, on the fetched snapshot. */
  function AfterFetch(inp: ActionInputs, lower: string -> string, st: StageRuns, snapshot: Snapshot,
                      done: seq<Stage>): ActionRun {
    var v := st.validate(snapshot);
    if v.outcome.Err? then ActionRun(done + [Validated(v)], Some(v.outcome.error))
    else AfterValidation(inp, lower, st, snapshot, v.outcome.value, done + [Validated(v)])
  }

  /** What the stages are for the inputs and the normalised URL. */
  ghost predicate StagesFor(st: StageRuns, inp: ActionInputs, env: ActionEnv, url: string, timeout: real) {
    && st.upload == UploadSpec(UploadInputsOf(inp, url), env.upload, env.files)
    && (forall c :: st.fetch(c) == FetchSpec(SnapshotInputs(url, inp.appName, inp.deployableName, c), env.snapshot))
    && (forall s :: st.validate(s) == ValidateSpec(url, s, timeout, env.validate))
    && (forall s, v :: st.publish(s, v) == PublishSnapshot(url, v, s, env.publishPostSucceeds))
    && (forall s, v, p :: st.results(s, v, p) == ResultsSpec(url, inp.deployableName, v, p, s, env.results, env.parse))
  }

  lemma StagesOfFor(inp: ActionInputs, env: ActionEnv, timeout: real)
    ensures StagesFor(StagesOf(inp, env, timeout), inp, env, NormalizeUrl(inp.instanceUrl), timeout)
  {
  }

  /** The publish stage, run only when auto-publish is on. */
  function AfterValidation(inp: ActionInputs, lower: string -> string, st: StageRuns, snapshot: Snapshot, status: string,
                           done: seq<Stage>): ActionRun {
    if Flag(lower, inp.autoPublish) then
      var p := st.publish(snapshot, status);
      if p.outcome.Err? then ActionRun(done + [Published(p)], Some(p.outcome.error))
      else Finish(inp, lower, st, snapshot, status, p.outcome.value, done + [Published(p)])
    else Finish(inp, lower, st, snapshot, status, false, done)
  }

  /** The results stage, then the termination flag. */
  function Finish(inp: ActionInputs, lower: string -> string, st: StageRuns, snapshot: Snapshot, status: string,
                  publishStatus: bool, done: seq<Stage>): ActionRun {
    var r := st.results(snapshot, status, publishStatus);
    var stages := done + [Reported(r)];
    if r.generated.outcome.Err? then ActionRun(stages, Some(r.generated.outcome.error))
    else if Flag(lower, inp.terminateOnFailures) && status !in VALIDATION_PASS_STATES then
      ActionRun(stages, Some(ValidationFailed(snapshot.name, status)))
    else ActionRun(stages, None)
  }

  /** `main`: the timeout check, then the stages awaited one after another inside
      one `try`. */
  method RunAction(inp: ActionInputs, env: ActionEnv) returns (run: ActionRun)
    ensures run == ActionSpec(inp, env)
  {
    var timeout := env.toNumber(inp.timeout);
    if !ValidTimeout(timeout) {
      return ActionRun([], Some(InvalidTimeout(inp.timeout)));
    }
    var url := NormalizeUrl(inp.instanceUrl);
    ghost var st := StagesOf(inp, env, timeout.value);
    StagesOfFor(inp, env, timeout.value);
    run := RunStages(inp, env, url, timeout.value, st);
  }

  /** The upload, and the stop on auto-commit or auto-validate. */
  method RunStages(inp: ActionInputs, env: ActionEnv, url: string, timeout: real, ghost st: StageRuns)
    returns (run: ActionRun)
    requires StagesFor(st, inp, env, url, timeout)
    ensures run == Flow(inp, env.lower, st)
  {
    var changeset, sent, _ := UploadConfig(UploadInputsOf(inp, url), env.upload, env.files);
    var stages := [Uploaded(UploadRun(sent, changeset))];
    if changeset.Err? {
      return ActionRun(stages, Some(changeset.error));
    }
    if !Flag(env.lower, inp.autoCommit) || !Flag(env.lower, inp.autoValidate) {
      return ActionRun(stages, None);
    }
    run := RunFromFetch(inp, env, url, timeout, st, changeset.value, stages);
  }

  /** The fetch. */
  method RunFromFetch(inp: ActionInputs, env: ActionEnv, url: string, timeout: real, ghost st: StageRuns,
                      changesetNumber: string, done: seq<Stage>)
    returns (run: ActionRun)
    requires StagesFor(st, inp, env, url, timeout)
    ensures run == AfterUpload(inp, env.lower, st, changesetNumber, done)
  {
    var fetched := FetchSnapshot(SnapshotInputs(url, inp.appName, inp.deployableName, changesetNumber), env.snapshot);
    var stages := done + [Fetched(fetched)];
    if fetched.outcome.Err? {
      return ActionRun(stages, Some(fetched.outcome.error));
    }
    run := RunFromValidate(inp, env, url, timeout, st, fetched.outcome.value, stages);
  }

  /** The validation. */
  method RunFromValidate(inp: ActionInputs, env: ActionEnv, url: string, timeout: real, ghost st: StageRuns,
                         snapshot: Snapshot, done: seq<Stage>)
    returns (run: ActionRun)
    requires StagesFor(st, inp, env, url, timeout)
    ensures run == AfterFetch(inp, env.lower, st, snapshot, done)
  {
    var validated := ValidateSnapshot(url, snapshot, timeout, env.validate);
    var stages := done + [Validated(validated)];
    if validated.outcome.Err? {
      return ActionRun(stages, Some(validated.outcome.error));
    }
    run := RunFromPublish(inp, env, url, timeout, st, snapshot, validated.outcome.value, stages);
  }

  /** The publish, when auto-publish is on, the results, and the termination flag. */
  method RunFromPublish(inp: ActionInputs, env: ActionEnv, url: string, timeout: real, ghost st: StageRuns,
                        snapshot: Snapshot, status: string, done: seq<Stage>)
    returns (run: ActionRun)
    requires StagesFor(st, inp, env, url, timeout)
    ensures run == AfterValidation(inp, env.lower, st, snapshot, status, done)
  {
    var stages := done;
    var publishStatus := false;
    if Flag(env.lower, inp.autoPublish) {
      var published := PublishSnapshot(url, status, snapshot, env.publishPostSucceeds);
      stages := stages + [Published(published)];
      if published.outcome.Err? {
        return ActionRun(stages, Some(published.outcome.error));
      }
      publishStatus := published.outcome.value;
    }
    var reported := FetchValidationResults(url, inp.deployableName, status, publishStatus, snapshot, env.results, env.parse);
    stages := stages + [Reported(reported)];
    if reported.generated.outcome.Err? {
      return ActionRun(stages, Some(reported.generated.outcome.error));
    }
    if Flag(env.lower, inp.terminateOnFailures) && status !in VALIDATION_PASS_STATES {
      return ActionRun(stages, Some(ValidationFailed(snapshot.name, status)));
    }
    run := ActionRun(stages, None);
  }

  /** An invalid timeout stops the run with the timeout error before any stage;
      with a valid one at least the upload runs. */
  lemma ActionTimeoutGate(inp: ActionInputs, env: ActionEnv)
    ensures var run := ActionSpec(inp, env);
      && (run.stages == [] <==> !ValidTimeout(env.toNumber(inp.timeout)))
      && (run.stages == [] ==> run.failed == Some(InvalidTimeout(inp.timeout)))
  {
  }

  /** The stages run in the fixed order upload, fetch, validate, publish, results,
      the later ones only when both auto-commit and auto-validate are on, and the
      publish stage exactly when auto-publish is on. */
  lemma FlowStageOrder(inp: ActionInputs, lower: string -> string, st: StageRuns)
    ensures var ss := Flow(inp, lower, st).stages;
      && 1 <= |ss| <= 5
      && ss[0].Uploaded?
      && (|ss| > 1 ==> ss[1].Fetched? && Flag(lower, inp.autoCommit) && Flag(lower, inp.autoValidate))
      && (|ss| > 2 ==> ss[2].Validated?)
      && (|ss| > 3 ==> (ss[3].Published? <==> Flag(lower, inp.autoPublish)) && (ss[3].Reported? <==> !Flag(lower, inp.autoPublish)))
      && (|ss| > 4 ==> ss[3].Published? && ss[4].Reported?)
  {
  }

  /** Every stage but the last succeeded; a last stage that threw is the run's
      failure, and a run without failure had every stage succeed. */
  lemma FlowFailure(inp: ActionInputs, lower: string -> string, st: StageRuns)
    ensures var run := Flow(inp, lower, st);
      var last := run.stages[|run.stages| - 1];
      && (forall i :: 0 <= i < |run.stages| - 1 ==> Succeeded(run.stages[i]))
      && (!Succeeded(last) ==> run.failed == Some(ErrorOf(last)))
      && (run.failed.None? ==> Succeeded(last))
  {
    var up := st.upload;
    if up.outcome.Ok? && Flag(lower, inp.autoCommit) && Flag(lower, inp.autoValidate) {
      var f := st.fetch(up.outcome.value);
      if f.outcome.Ok? {
        var v := st.validate(f.outcome.value);
        var done := [Uploaded(up), Fetched(f), Validated(v)];
        if v.outcome.Ok? {
          var snapshot, status := f.outcome.value, v.outcome.value;
          if Flag(lower, inp.autoPublish) {
            var p := st.publish(snapshot, status);
            if p.outcome.Ok? {
              assert Flow(inp, lower, st).stages == done + [Published(p), Reported(st.results(snapshot, status, p.outcome.value))];
            } else {
              assert Flow(inp, lower, st).stages == done + [Published(p)];
            }
          } else {
            assert Flow(inp, lower, st).stages == done + [Reported(st.results(snapshot, status, false))];
          }
        }
      }
    }
  }

  /** A run whose stages all succeeded fails only when the termination flag is on and
      the validation state did not pass, with the snapshot's name and that state. */
  lemma FlowTermination(inp: ActionInputs, lower: string -> string, st: StageRuns)
    ensures var run := Flow(inp, lower, st);
      var last := run.stages[|run.stages| - 1];
      run.failed.Some? && Succeeded(last) ==>
        && |run.stages| > 3 && last.Reported? && run.stages[1].Fetched? && run.stages[2].Validated?
        && Flag(lower, inp.terminateOnFailures)
        && run.stages[2].validation.outcome.Ok?
        && run.stages[2].validation.outcome.value !in VALIDATION_PASS_STATES
        && run.stages[1].fetch.outcome.Ok?
        && run.failed == Some(ValidationFailed(run.stages[1].fetch.outcome.value.name, run.stages[2].validation.outcome.value))
  {
  }

  /** Each stage works on what the stage before it produced: the fetch on the
      changeset the upload ended on, the validation on the fetched snapshot, and the
      publish and results stages on that snapshot and its validation state, with the
      publish result (false without a publish) as publish status. */
  lemma FlowThreading(inp: ActionInputs, lower: string -> string, st: StageRuns)
    ensures var run := Flow(inp, lower, st);
      && run.stages[0] == Uploaded(st.upload)
      && (|run.stages| > 1 ==> run.stages[1] == Fetched(st.fetch(st.upload.outcome.value)))
      && (|run.stages| > 2 ==> run.stages[2] == Validated(st.validate(run.stages[1].fetch.outcome.value)))
      && (|run.stages| > 3 ==>
            var snapshot := run.stages[1].fetch.outcome.value;
            var status := run.stages[2].validation.outcome.value;
            var last := run.stages[|run.stages| - 1];
            && (run.stages[3].Published? ==> run.stages[3] == Published(st.publish(snapshot, status)))
            && (last.Reported? ==>
                  last == Reported(st.results(snapshot, status,
                    if run.stages[3].Published? then run.stages[3].publish.outcome.value else false))))
  {
  }

  /** The publish stage reports true exactly for a snapshot that is published
      already or whose validation passed. */
  ghost predicate PublishesAsGated(st: StageRuns) {
    forall snapshot, status :: st.publish(snapshot, status).outcome.Ok? ==>
      st.publish(snapshot, status).outcome.value == (snapshot.publishedStatus == "true" || status in VALIDATION_PASS_STATES)
  }

  /** The results stage reports a snapshot as published when it already was or when
      the publish status says so. */
  ghost predicate ReportsPublishStatus(st: StageRuns) {
    forall snapshot, status, publishStatus :: st.results(snapshot, status, publishStatus).generated.outcome.Ok? ==>
      st.results(snapshot, status, publishStatus).generated.outcome.value.report.published
        == (snapshot.publishedStatus == "true" || publishStatus)
  }

  /** The action's own publish and results stages behave so. */
  lemma StagesReportPublishing(inp: ActionInputs, env: ActionEnv, timeout: real)
    ensures PublishesAsGated(StagesOf(inp, env, timeout))
    ensures ReportsPublishStatus(StagesOf(inp, env, timeout))
  {
    var st := StagesOf(inp, env, timeout);
    forall snapshot, status | st.publish(snapshot, status).outcome.Ok?
      ensures st.publish(snapshot, status).outcome.value == (snapshot.publishedStatus == "true" || status in VALIDATION_PASS_STATES)
    {
      PublishAtMostOnce(NormalizeUrl(inp.instanceUrl), status, snapshot, env.publishPostSucceeds);
    }
    forall snapshot, status, publishStatus | st.results(snapshot, status, publishStatus).generated.outcome.Ok?
      ensures st.results(snapshot, status, publishStatus).generated.outcome.value.report.published
        == (snapshot.publishedStatus == "true" || publishStatus)
    {
      var url := NormalizeUrl(inp.instanceUrl);
      match env.results
      case ResultsThrew =>
      case NoResultList =>
      case ResultList(rows) =>
        ReportFields(rows, inp.deployableName, snapshot, status, publishStatus, env.parse);
    }
  }

  /** With such stages, the report records the snapshot as published exactly when it
      already was, or auto-publish is on and its validation passed. */
  lemma FlowReportsPublished(inp: ActionInputs, lower: string -> string, st: StageRuns)
    requires PublishesAsGated(st) && ReportsPublishStatus(st)
    ensures var run := Flow(inp, lower, st);
      var last := run.stages[|run.stages| - 1];
      last.Reported? && Succeeded(last) ==>
        var snapshot := run.stages[1].fetch.outcome.value;
        var status := run.stages[2].validation.outcome.value;
        last.report.generated.outcome.value.report.published
          == (snapshot.publishedStatus == "true" || (Flag(lower, inp.autoPublish) && status in VALIDATION_PASS_STATES))
  {
  }
}
