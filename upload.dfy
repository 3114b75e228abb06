/** The upload stage: every configuration file is posted in order, each post is
    followed by polling its upload job, and the changeset number moves from one
    round to the next. */
module Upload {
  import opened Outcomes
  import opened Text
  import opened Constants
  import opened Utils
  import opened Polling

  /** The action inputs the stage reads; `instanceUrl` is the already trimmed URL. */
  datatype UploadInputs = UploadInputs(
    instanceUrl: string, target: string, appName: string, deployableName: string,
    collectionName: string, dataFormat: string, autoCommit: string, configFilePath: string,
    namePath: string, changesetNumber: string, dataFormatAttributes: string)

  /** The query of an upload request. The last three fields are absent until the
      loop first sets them. */
  datatype UploadQuery = UploadQuery(
    appName: string, dataFormat: string, autoValidate: string, publishOption: string,
    collectionName: string, deployableName: string, dataFormatAttributes: string,
    autoDelete: string, deleteRedundantOverrides: string, ignoreAttributes: string,
    autoCommit: Option<string>, changesetNumber: Option<string>, namePath: Option<string>)

  /** One upload POST: where it went, the file content it carried, and its query. */
  datatype UploadRequest = UploadRequest(endpoint: string, content: string, query: UploadQuery)

  /** A polled upload job: its state, the changeset number of its output, and its
      output as the error message shows it. */
  datatype UploadStatus = UploadStatus(state: string, number: string, output: string)

  /** What the stage gets from outside: the file system (`readFile` is None when
      reading throws), `path.basename`, `JSON.parse` on name paths, the upload id
      returned by the i-th upload POST (None when the POST throws), and the k-th
      status poll of the i-th upload job. */
  datatype UploadService = UploadService(
    readFile: string -> Option<string>,
    basename: string -> string,
    parseArray: string -> Option<seq<string>>,
    uploadId: nat -> Option<string>,
    uploadStatus: nat -> nat -> Attempt<UploadStatus>)

  datatype UploadRun = UploadRun(sent: seq<UploadRequest>, outcome: Result<string>)

  const TARGET_KINDS: set<string> := {"component", "collection", "deployable"}

  /** `getUploadFileEndpointForTarget`: the target kind, pluralised, under the
      uploads path; any other target is refused. */
  function UploadFileEndpoint(instanceUrl: string, target: string): (r: Result<string>)
    ensures r.Ok? <==> target in TARGET_KINDS
    ensures r.Ok? ==> r.value == instanceUrl + UPLOAD_CONFIG_DATA + "/" + target + "s"
    ensures r.Err? ==> r.error == InvalidTarget(target)
  {
    var base := instanceUrl + UPLOAD_CONFIG_DATA;
    if target == "component" then Ok(base + "/components")
    else if target == "collection" then Ok(base + "/collections")
    else if target == "deployable" then Ok(base + "/deployables")
    else Err(InvalidTarget(target))
  }

  /** `getQueryParamsForUpload`. */
  function InitialQuery(cfg: UploadInputs): UploadQuery {
    UploadQuery(
      cfg.appName, cfg.dataFormat, "false", "publish_none", cfg.collectionName,
      cfg.deployableName, cfg.dataFormatAttributes, "true", "false", "false",
      None, None, None)
  }

  /** The name path sent with a file: the file's base name, under the normalised
      name path when one is given. It always ends with the file name. */
  function EffectiveNamePath(namePath: string, fileName: string, parseArray: string -> Option<seq<string>>): (r: string)
    ensures |r| >= |fileName| && r[|r| - |fileName|..] == fileName
    ensures AllWhitespace(namePath) ==> r == fileName
  {
    UnderBase(NameBase(namePath, parseArray), fileName)
  }

  /** The part of the name path that does not depend on the file: the normalised
      name path input, or nothing when that input is empty. */
  function NameBase(namePath: string, parseArray: string -> Option<seq<string>>): (b: Option<string>)
    ensures b.None? <==> AllWhitespace(namePath)
  {
    if !IsEmpty(Str(namePath)) then Some(NormalizeNamePath(Str(namePath), parseArray).s) else None
  }

  /** A file name under a base, joined by the separator. */
  function UnderBase(base: Option<string>, fileName: string): (r: string)
    ensures |r| >= |fileName| && r[|r| - |fileName|..] == fileName
  {
    match base
    case None => fileName
    case Some(b) => b + [NAME_PATH_SEPARATOR] + fileName
  }

  /** A blank name-path input sends the file's base name alone; any other sends the
      normalised input, the separator and the base name. */
  lemma EffectiveNamePathCases(namePath: string, fileName: string, parseArray: string -> Option<seq<string>>)
    ensures AllWhitespace(namePath) ==> EffectiveNamePath(namePath, fileName, parseArray) == fileName
    ensures !AllWhitespace(namePath) ==>
      var normalised := NormalizeNamePath(Str(namePath), parseArray);
      && normalised.Str?
      && NameBase(namePath, parseArray) == Some(normalised.s)
      && EffectiveNamePath(namePath, fileName, parseArray) == normalised.s + [NAME_PATH_SEPARATOR] + fileName
  {
  }

  /** `setNamePathForCurrentRequest`: writes the name path for `file` into the query
      and changes nothing else in it. */
  function SetNamePathForCurrentRequest(namePath: string, file: string, query: UploadQuery, svc: UploadService): (r: UploadQuery)
    ensures r.namePath == Some(EffectiveNamePath(namePath, svc.basename(file), svc.parseArray))
    ensures r.(namePath := query.namePath) == query
  {
    query.(namePath := Some(EffectiveNamePath(namePath, svc.basename(file), svc.parseArray)))
  }

  /** The condition the upload-status poll waits for. */
  function IsUploadTerminal(status: UploadStatus): Check {
    if status.state in UPLOAD_TERMINAL_STATES then Met else NotMet
  }

  /** The mapping of `checkUploadStatus` from the poll result to its outcome. */
  function UploadStatusOutcome(response: Option<UploadStatus>, uploadId: string): Result<string> {
    match response
    case None => Err(UploadNotProcessed(uploadId))
    case Some(status) =>
      if status.state == "completed" then Ok(status.number)
      else if status.state == "expired" then Err(UploadExpired(uploadId))
      else Err(UploadFailed(status.output))
  }

  /** The status poll of upload job `i` with the upload budget. */
  function StatusPoll(svc: UploadService, i: nat): PollRun<UploadStatus> {
    PollSpec(svc.uploadStatus(i), IsUploadTerminal, UPLOAD_CONFIG_MAX_ATTEMPTS, UPLOAD_CONFIG_MAX_INTERVAL_MILLISECONDS)
  }

  /** `checkUploadStatus`: polls the job with 70 attempts from 7000 ms and maps the
      result. */
  method CheckUploadStatus(statuses: nat -> Attempt<UploadStatus>, uploadId: string)
    returns (outcome: Result<string>, polls: nat, sleeps: seq<int>)
    ensures var run := PollSpec(statuses, IsUploadTerminal, UPLOAD_CONFIG_MAX_ATTEMPTS, UPLOAD_CONFIG_MAX_INTERVAL_MILLISECONDS);
      outcome == UploadStatusOutcome(run.response, uploadId) && polls == run.requests && sleeps == run.sleeps
  {
    var response;
    response, polls, sleeps := ExponentialPolling(statuses, IsUploadTerminal, UPLOAD_CONFIG_MAX_ATTEMPTS, UPLOAD_CONFIG_MAX_INTERVAL_MILLISECONDS);
    outcome := UploadStatusOutcome(response, uploadId);
  }

  /** After polling, a completed job yields its changeset number; an expired one and
      an errored one fail, and only a job in state `error` gives the generic upload
      failure; exhausting the 70 attempts fails as "not processed yet". */
  lemma UploadStatusAfterPolling(statuses: nat -> Attempt<UploadStatus>, uploadId: string)
    ensures var run := PollSpec(statuses, IsUploadTerminal, UPLOAD_CONFIG_MAX_ATTEMPTS, UPLOAD_CONFIG_MAX_INTERVAL_MILLISECONDS);
      var outcome := UploadStatusOutcome(run.response, uploadId);
      && (outcome.Ok? <==> run.response.Some? && run.response.value.state == "completed")
      && (outcome.Ok? ==> outcome.value == run.response.value.number)
      && (outcome.Err? && outcome.error.UploadFailed? ==> run.response.value.state == "error")
      && (outcome == Err(UploadNotProcessed(uploadId)) <==>
            forall k :: 0 <= k < UPLOAD_CONFIG_MAX_ATTEMPTS ==> !Satisfied(statuses(k), IsUploadTerminal))
      && run.requests <= 70
  {
    PollResult(statuses, IsUploadTerminal, UPLOAD_CONFIG_MAX_ATTEMPTS, UPLOAD_CONFIG_MAX_INTERVAL_MILLISECONDS);
  }

  /** The outcome of round `i` once its upload id is known. */
  function RoundOutcome(svc: UploadService, i: nat, uploadId: string): Result<string> {
    UploadStatusOutcome(StatusPoll(svc, i).response, uploadId)
  }

  /** The autoCommit input goes with the last file only; earlier files send false. */
  function AutoCommitFlag(cfg: UploadInputs, fileCount: nat, i: nat): string {
    if i == fileCount - 1 then cfg.autoCommit else "false"
  }

  /** `f` applied to each of the first `n` elements of `xs`, in order. */
  function MapPrefix<A, B>(f: A -> B, xs: seq<A>, n: nat): (r: seq<B>)
    requires n <= |xs|
    ensures |r| == n
  {
    if n == 0 then [] else MapPrefix(f, xs, n - 1) + [f(xs[n - 1])]
  }

  lemma {:induction false} MapPrefixAt<A, B>(f: A -> B, xs: seq<A>, n: nat, j: nat)
    requires j < n <= |xs|
    ensures MapPrefix(f, xs, n)[j] == f(xs[j])
  {
    if j < n - 1 {
      MapPrefixAt(f, xs, n - 1, j);
    }
  }

  /** The name paths the first `n` matched files are sent under, in order. */
  function NamePaths(base: Option<string>, basename: string -> string, files: seq<string>, n: nat): (r: seq<string>)
    requires n <= |files|
    ensures |r| == n
  {
    if n == 0 then [] else NamePaths(base, basename, files, n - 1) + [UnderBase(base, basename(files[n - 1]))]
  }

  lemma {:induction false} NamePathsAt(base: Option<string>, basename: string -> string, files: seq<string>, n: nat, j: nat)
    requires j < n <= |files|
    ensures NamePaths(base, basename, files, n)[j] == UnderBase(base, basename(files[j]))
  {
    if j < n - 1 {
      NamePathsAt(base, basename, files, n - 1, j);
    }
  }

  /** What the server does in round `i`: the upload POST threw, or it returned an
      upload id whose status check then came to `outcome`. */
  datatype RoundReply = NoUploadId | StatusChecked(uploadId: string, outcome: Result<string>)

  /** The server's reply in round `i`. */
  function ReplyTo(svc: UploadService, i: nat): RoundReply {
    match svc.uploadId(i)
    case None => NoUploadId
    case Some(id) => StatusChecked(id, RoundOutcome(svc, i, id))
  }

  function ReplyOf(svc: UploadService): nat -> RoundReply {
    (i: nat) => ReplyTo(svc, i)
  }

  /** The round numbers 0 .. n-1. */
  function Rounds(n: nat): (r: seq<nat>)
    ensures |r| == n && forall i :: 0 <= i < n ==> r[i] == i
  {
    seq(n, i requires 0 <= i < n => i)
  }

  /** What the loop works through: the endpoint, the matched files, the name path
      of each, and the server's reply in each round. */
  datatype UploadPlan = UploadPlan(endpoint: string, files: seq<string>, namePaths: seq<string>, replies: seq<RoundReply>)

  predicate WellFormed(plan: UploadPlan) {
    |plan.namePaths| == |plan.files| && |plan.replies| == |plan.files|
  }

  function PlanFor(cfg: UploadInputs, svc: UploadService, endpoint: string, files: seq<string>): (plan: UploadPlan)
    ensures WellFormed(plan)
  {
    UploadPlan(endpoint, files, NamePaths(NameBase(cfg.namePath, svc.parseArray), svc.basename, files, |files|),
      MapPrefix(ReplyOf(svc), Rounds(|files|), |files|))
  }

  /** The upload of file `i`, carrying changeset number `chset`. */
  function RequestFor(cfg: UploadInputs, plan: UploadPlan, i: nat, chset: string, content: string): (r: UploadRequest)
    requires WellFormed(plan) && i < |plan.files|
    ensures r.query.changesetNumber == Some(chset)
  {
    UploadRequest(plan.endpoint, content, InitialQuery(cfg).(
      autoCommit := Some(AutoCommitFlag(cfg, |plan.files|, i)),
      changesetNumber := Some(chset),
      namePath := Some(plan.namePaths[i])))
  }

  /** One round of the loop: it either moves on with the request it sent and the
      new changeset number, or stops with the requests it sent and the error. */
  datatype Round = Next(request: UploadRequest, number: string) | Halt(tail: seq<UploadRequest>, error: Error)

  /** Round `i` of the loop, holding changeset `chset`. */
  function UploadRound(cfg: UploadInputs, svc: UploadService, plan: UploadPlan, i: nat, chset: string): Round
    requires WellFormed(plan) && i < |plan.files|
  {
    match svc.readFile(plan.files[i])
    case None => Halt([], FileReadFailed(plan.files[i]))
    case Some(content) =>
      var request := RequestFor(cfg, plan, i, chset, content);
      match plan.replies[i]
      case NoUploadId => Halt([request], RequestFailed)
      case StatusChecked(_, Err(e)) => Halt([request], e)
      case StatusChecked(_, Ok(number)) => Next(request, number)
  }

  /** The loop from file `i` on, holding changeset `chset`: the requests it sends
      and how it ends. */
  function UploadFrom(cfg: UploadInputs, svc: UploadService, plan: UploadPlan, i: nat, chset: string): UploadRun
    requires WellFormed(plan) && i <= |plan.files|
    decreases |plan.files| - i
  {
    if i == |plan.files| then UploadRun([], Ok(chset))
    else
      match UploadRound(cfg, svc, plan, i, chset)
      case Halt(tail, e) => UploadRun(tail, Err(e))
      case Next(request, number) =>
        var rest := UploadFrom(cfg, svc, plan, i + 1, number);
        UploadRun([request] + rest.sent, rest.outcome)
  }

  /** What `uploadConfig` does, given the files the pattern matched. */
  function UploadSpec(cfg: UploadInputs, svc: UploadService, files: seq<string>): UploadRun {
    match UploadFileEndpoint(cfg.instanceUrl, cfg.target)
    case Err(e) => UploadRun([], Err(e))
    case Ok(endpoint) =>
      if IsArrayEmpty(Arr(files)) then UploadRun([], Err(NoFilesFound(cfg.configFilePath)))
      else UploadFrom(cfg, svc, PlanFor(cfg, svc, endpoint, files), 0, cfg.changesetNumber)
  }

  lemma ConcatAssoc<T>(a: seq<T>, b: seq<T>, c: seq<T>)
    ensures a + (b + c) == (a + b) + c
  {
  }

  /** What is known of the plan of a run: its endpoint and files, and the name paths
      and replies the loop computes for them. */
  predicate PlanOf(cfg: UploadInputs, svc: UploadService, endpoint: string, files: seq<string>, plan: UploadPlan) {
    && WellFormed(plan) && plan.endpoint == endpoint && plan.files == files
    && NamePathsOf(cfg, svc, plan) && RepliesOf(svc, plan)
  }

  /** That is all there is to the plan. */
  lemma PlanDetermined(cfg: UploadInputs, svc: UploadService, endpoint: string, files: seq<string>, plan: UploadPlan)
    requires PlanOf(cfg, svc, endpoint, files, plan)
    ensures plan == PlanFor(cfg, svc, endpoint, files)
  {
    var other := PlanFor(cfg, svc, endpoint, files);
    PlanForReplies(cfg, svc, endpoint, files);
    assert plan.namePaths == other.namePaths;
    assert plan.replies == other.replies;
  }

  /** `uploadConfig`: checks the target and the file match, then runs the upload
      loop. On success the final changeset number is both returned and set as the
      `changeset-number` output. */
  method UploadConfig(cfg: UploadInputs, svc: UploadService, files: seq<string>)
    returns (outcome: Result<string>, sent: seq<UploadRequest>, output: Option<(string, string)>)
    ensures UploadRun(sent, outcome) == UploadSpec(cfg, svc, files)
    ensures output == if outcome.Ok? then Some((CHANGESET_NUMBER, outcome.value)) else None
  {
    sent, output := [], None;
    var endpointOrError := UploadFileEndpoint(cfg.instanceUrl, cfg.target);
    if endpointOrError.Err? {
      outcome := Err(endpointOrError.error);
      return;
    }
    var endpoint := endpointOrError.value;
    var query := InitialQuery(cfg);
    if IsArrayEmpty(Arr(files)) {
      outcome := Err(NoFilesFound(cfg.configFilePath));
      return;
    }
    PlanForReplies(cfg, svc, endpoint, files);
    assert PlanOf(cfg, svc, endpoint, files, PlanFor(cfg, svc, endpoint, files));
    ghost var plan :| PlanOf(cfg, svc, endpoint, files, plan);
    PlanDetermined(cfg, svc, endpoint, files, plan);
    outcome, sent := UploadFiles(cfg, svc, endpoint, files, query, plan);
    if outcome.Ok? {
      output := Some((CHANGESET_NUMBER, outcome.value));
    }
  }

  /** The loop of `uploadConfig` over the matched files: per file it reads the
      content, sets autoCommit, the changeset number and the name path on the shared
      query, posts the upload and checks its status, whose changeset number the
      next file carries. */
  method UploadFiles(cfg: UploadInputs, svc: UploadService, endpoint: string, files: seq<string>,
                     query0: UploadQuery, ghost plan: UploadPlan)
    returns (outcome: Result<string>, sent: seq<UploadRequest>)
    requires PlanOf(cfg, svc, endpoint, files, plan) && query0 == InitialQuery(cfg)
    ensures UploadRun(sent, outcome) == UploadFrom(cfg, svc, plan, 0, cfg.changesetNumber)
  {
    sent := [];
    var query := query0;
    var chset := cfg.changesetNumber;
    var i := 0;
    while i < |files|
      invariant 0 <= i <= |files|
      invariant SharedQuery(cfg, query)
      invariant var rest := UploadFrom(cfg, svc, plan, i, chset);
        UploadFrom(cfg, svc, plan, 0, cfg.changesetNumber) == UploadRun(sent + rest.sent, rest.outcome)
    {
      var round;
      round, query := UploadFile(cfg, svc, endpoint, files, query, plan, i, chset);
      if round.Halt? {
        assert UploadFrom(cfg, svc, plan, i, chset) == UploadRun(round.tail, Err(round.error));
        sent := sent + round.tail;
        outcome := Err(round.error);
        assert sent + [] == sent;
        return;
      }
      ghost var rest := UploadFrom(cfg, svc, plan, i + 1, round.number);
      assert UploadFrom(cfg, svc, plan, i, chset) == UploadRun([round.request] + rest.sent, rest.outcome);
      ConcatAssoc(sent, [round.request], rest.sent);
      sent := sent + [round.request];
      chset := round.number;
      i := i + 1;
    }
    assert sent + [] == sent;
    outcome := Ok(chset);
  }

  /** The query shared by all rounds: only autoCommit, the changeset number and the
      name path are ever changed on it. */
  predicate SharedQuery(cfg: UploadInputs, query: UploadQuery) {
    query == InitialQuery(cfg).(autoCommit := query.autoCommit, changesetNumber := query.changesetNumber, namePath := query.namePath)
  }

  /** One pass of the loop of `uploadConfig`, for file `i` holding changeset `chset`:
      it reads the content, sets autoCommit, the changeset number and the name path
      on the shared query, posts the upload and checks its status. */
  method UploadFile(cfg: UploadInputs, svc: UploadService, endpoint: string, files: seq<string>,
                    query0: UploadQuery, ghost plan: UploadPlan, i: nat, chset: string)
    returns (round: Round, query: UploadQuery)
    requires PlanOf(cfg, svc, endpoint, files, plan) && i < |files| && SharedQuery(cfg, query0)
    ensures round == UploadRound(cfg, svc, plan, i, chset)
    ensures SharedQuery(cfg, query)
  {
    query := query0;
    var file := files[i];
    var content := svc.readFile(file);
    if content.None? {
      return Halt([], FileReadFailed(file)), query;
    }
    var autoCommitFlag := if |files| - 1 == i then cfg.autoCommit else "false";
    query := query.(autoCommit := Some(autoCommitFlag), changesetNumber := Some(chset));
    query := SetNamePathForCurrentRequest(cfg.namePath, file, query, svc);
    var request := UploadRequest(endpoint, content.value, query);
    NamePathsAt(NameBase(cfg.namePath, svc.parseArray), svc.basename, files, |files|, i);
    assert request == RequestFor(cfg, plan, i, chset, content.value);
    assert plan.replies[i] == ReplyTo(svc, i);
    var uploadId := svc.uploadId(i);
    if uploadId.None? {
      return Halt([request], RequestFailed), query;
    }
    var status, polls, sleeps := CheckUploadStatus(svc.uploadStatus(i), uploadId.value);
    assert plan.replies[i] == StatusChecked(uploadId.value, status);
    if status.Err? {
      return Halt([request], status.error), query;
    }
    round := Next(request, status.value);
  }

  /** Request `request` is what round `j` sends: file j's content, with file j's
      query carrying the changeset number in it. */
  predicate RoundSent(cfg: UploadInputs, svc: UploadService, plan: UploadPlan, j: nat, request: UploadRequest)
    requires WellFormed(plan) && j < |plan.files|
  {
    && svc.readFile(plan.files[j]).Some?
    && request.query.changesetNumber.Some?
    && request == RequestFor(cfg, plan, j, request.query.changesetNumber.value, svc.readFile(plan.files[j]).value)
  }

  /** The loop from file `i` on sends at most one request per remaining file, one
      for every remaining file when it succeeds; the k-th is what round i+k sends,
      and the first carries `chset`. */
  lemma {:induction false} UploadFromRequests(cfg: UploadInputs, svc: UploadService, plan: UploadPlan, i: nat, chset: string)
    requires WellFormed(plan) && i <= |plan.files|
    ensures |UploadFrom(cfg, svc, plan, i, chset).sent| <= |plan.files| - i
    ensures UploadFrom(cfg, svc, plan, i, chset).outcome.Ok? ==>
      |UploadFrom(cfg, svc, plan, i, chset).sent| == |plan.files| - i
    ensures forall k :: 0 <= k < |UploadFrom(cfg, svc, plan, i, chset).sent| ==>
      RoundSent(cfg, svc, plan, i + k, UploadFrom(cfg, svc, plan, i, chset).sent[k])
    ensures |UploadFrom(cfg, svc, plan, i, chset).sent| > 0 ==>
      UploadFrom(cfg, svc, plan, i, chset).sent[0].query.changesetNumber == Some(chset)
    decreases |plan.files| - i
  {
    if i < |plan.files| && svc.readFile(plan.files[i]).Some? {
      var request := RequestFor(cfg, plan, i, chset, svc.readFile(plan.files[i]).value);
      assert RoundSent(cfg, svc, plan, i, request);
      var round := UploadRound(cfg, svc, plan, i, chset);
      if round.Next? {
        assert round.request == request;
        UploadFromRequests(cfg, svc, plan, i + 1, round.number);
        var rest := UploadFrom(cfg, svc, plan, i + 1, round.number).sent;
        var sent := [request] + rest;
        assert UploadFrom(cfg, svc, plan, i, chset).sent == sent;
        forall k | 0 <= k < |sent|
          ensures RoundSent(cfg, svc, plan, i + k, sent[k])
        {
          if k > 0 {
            var j := (i + 1) + (k - 1);
            assert RoundSent(cfg, svc, plan, j, rest[k - 1]);
            assert j == i + k && sent[k] == rest[k - 1];
          }
        }
      } else {
        assert round.tail == [] || round.tail == [request];
        assert UploadFrom(cfg, svc, plan, i, chset).sent == round.tail;
      }
    }
  }

  /** Request k of those sent from round `i` on carries the changeset number that
      the status check of the round before it returned. */
  predicate CarriesPreviousNumber(plan: UploadPlan, i: nat, sent: seq<UploadRequest>, k: nat)
    requires WellFormed(plan) && 0 < k < |sent| && i + |sent| <= |plan.files|
  {
    && plan.replies[i + k - 1].StatusChecked?
    && plan.replies[i + k - 1].outcome.Ok?
    && sent[k].query.changesetNumber == Some(plan.replies[i + k - 1].outcome.value)
  }

  /** From file `i` on, every round after the first carries the changeset number the
      previous round's status check returned, and a successful loop returns the
      number of its last round, or `chset` when no round is left. */
  lemma {:induction false} UploadFromThreading(cfg: UploadInputs, svc: UploadService, plan: UploadPlan, i: nat, chset: string)
    requires WellFormed(plan) && i <= |plan.files|
    ensures |UploadFrom(cfg, svc, plan, i, chset).sent| <= |plan.files| - i
    ensures forall k :: 0 < k < |UploadFrom(cfg, svc, plan, i, chset).sent| ==>
      CarriesPreviousNumber(plan, i, UploadFrom(cfg, svc, plan, i, chset).sent, k)
    ensures UploadFrom(cfg, svc, plan, i, chset).outcome.Ok? && i < |plan.files| ==>
      && plan.replies[|plan.files| - 1].StatusChecked?
      && plan.replies[|plan.files| - 1].outcome == UploadFrom(cfg, svc, plan, i, chset).outcome
    ensures i == |plan.files| ==> UploadFrom(cfg, svc, plan, i, chset).outcome == Ok(chset)
    decreases |plan.files| - i
  {
    if i < |plan.files| {
      var round := UploadRound(cfg, svc, plan, i, chset);
      if round.Next? {
        UploadFromThreading(cfg, svc, plan, i + 1, round.number);
        UploadFromRequests(cfg, svc, plan, i + 1, round.number);
        var rest := UploadFrom(cfg, svc, plan, i + 1, round.number).sent;
        var sent := UploadFrom(cfg, svc, plan, i, chset).sent;
        assert sent == [round.request] + rest;
        assert plan.replies[i].StatusChecked? && plan.replies[i].outcome == Ok(round.number);
        forall k | 0 < k < |sent|
          ensures CarriesPreviousNumber(plan, i, sent, k)
        {
          assert sent[k] == rest[k - 1];
          if k > 1 {
            assert CarriesPreviousNumber(plan, i + 1, rest, k - 1);
            assert (i + 1) + (k - 1) - 1 == i + k - 1;
          }
        }
      } else {
        assert UploadFrom(cfg, svc, plan, i, chset).outcome.Err?;
      }
    }
  }

  /** A target other than component, collection or deployable, and an empty file
      match, both fail before any upload is made. */
  lemma UploadRejectsEarly(cfg: UploadInputs, svc: UploadService, files: seq<string>)
    ensures cfg.target !in TARGET_KINDS ==>
      UploadSpec(cfg, svc, files) == UploadRun([], Err(InvalidTarget(cfg.target)))
    ensures cfg.target in TARGET_KINDS && files == [] ==>
      UploadSpec(cfg, svc, files) == UploadRun([], Err(NoFilesFound(cfg.configFilePath)))
  {
  }

  /** A plan whose name paths are the ones the loop computes for its files. It is
      stated for the name path input through a bound variable, so that the
      normalisation is only looked into where a name path is computed. */
  predicate NamePathsOf(cfg: UploadInputs, svc: UploadService, plan: UploadPlan)
    requires WellFormed(plan)
  {
    forall namePath | namePath == cfg.namePath ::
      plan.namePaths == NamePaths(NameBase(namePath, svc.parseArray), svc.basename, plan.files, |plan.files|)
  }

  /** Request `r` is the upload of file `j` of `files`: it goes to the target's
      endpoint with the file's content, the file's name path, the fixed query fields,
      and autoCommit set only on the last file. */
  predicate UploadOfFile(cfg: UploadInputs, svc: UploadService, files: seq<string>, j: nat, r: UploadRequest)
    requires j < |files|
  {
    && r.endpoint == cfg.instanceUrl + UPLOAD_CONFIG_DATA + "/" + cfg.target + "s"
    && svc.readFile(files[j]) == Some(r.content)
    && r.query.autoCommit == Some(if j == |files| - 1 then cfg.autoCommit else "false")
    && r.query.namePath == Some(EffectiveNamePath(cfg.namePath, svc.basename(files[j]), svc.parseArray))
    && r.query.autoValidate == "false" && r.query.publishOption == "publish_none"
    && r.query.autoDelete == "true" && r.query.deleteRedundantOverrides == "false" && r.query.ignoreAttributes == "false"
    && r.query.appName == cfg.appName && r.query.deployableName == cfg.deployableName
    && r.query.collectionName == cfg.collectionName && r.query.dataFormat == cfg.dataFormat
    && r.query.dataFormatAttributes == cfg.dataFormatAttributes
  }

  lemma RequestForIsUpload(cfg: UploadInputs, svc: UploadService, plan: UploadPlan, j: nat, chset: string, content: string)
    requires WellFormed(plan) && NamePathsOf(cfg, svc, plan) && j < |plan.files|
    requires plan.endpoint == cfg.instanceUrl + UPLOAD_CONFIG_DATA + "/" + cfg.target + "s"
    requires svc.readFile(plan.files[j]) == Some(content)
    ensures UploadOfFile(cfg, svc, plan.files, j, RequestFor(cfg, plan, j, chset, content))
  {
    NamePathsAt(NameBase(cfg.namePath, svc.parseArray), svc.basename, plan.files, |plan.files|, j);
  }

  /** Every request the loop sends from the first file is the upload of its file. */
  lemma {:induction false} RequestsFromStart(cfg: UploadInputs, svc: UploadService, plan: UploadPlan, chset: string)
    requires WellFormed(plan) && NamePathsOf(cfg, svc, plan)
    requires plan.endpoint == cfg.instanceUrl + UPLOAD_CONFIG_DATA + "/" + cfg.target + "s"
    ensures |UploadFrom(cfg, svc, plan, 0, chset).sent| <= |plan.files|
    ensures forall j :: 0 <= j < |UploadFrom(cfg, svc, plan, 0, chset).sent| ==>
      UploadOfFile(cfg, svc, plan.files, j, UploadFrom(cfg, svc, plan, 0, chset).sent[j])
  {
    UploadFromRequests(cfg, svc, plan, 0, chset);
    var sent := UploadFrom(cfg, svc, plan, 0, chset).sent;
    forall j | 0 <= j < |sent|
      ensures UploadOfFile(cfg, svc, plan.files, j, sent[j])
    {
      assert RoundSent(cfg, svc, plan, 0 + j, sent[j]);
      RequestForIsUpload(cfg, svc, plan, j, sent[j].query.changesetNumber.value, svc.readFile(plan.files[j]).value);
    }
  }

  /** The uploads go out in file order, at most one per file and one for every file
      on success, each the upload of its file. */
  lemma UploadRequestsInFileOrder(cfg: UploadInputs, svc: UploadService, files: seq<string>)
    requires cfg.target in TARGET_KINDS
    ensures |UploadSpec(cfg, svc, files).sent| <= |files|
    ensures UploadSpec(cfg, svc, files).outcome.Ok? ==> |UploadSpec(cfg, svc, files).sent| == |files| && files != []
    ensures forall j :: 0 <= j < |UploadSpec(cfg, svc, files).sent| ==>
      UploadOfFile(cfg, svc, files, j, UploadSpec(cfg, svc, files).sent[j])
  {
    if files != [] {
      var endpoint := UploadFileEndpoint(cfg.instanceUrl, cfg.target).value;
      var plan := PlanFor(cfg, svc, endpoint, files);
        UploadFromRequests(cfg, svc, plan, 0, cfg.changesetNumber);
      RequestsFromStart(cfg, svc, plan, cfg.changesetNumber);
      assert UploadSpec(cfg, svc, files) == UploadFrom(cfg, svc, plan, 0, cfg.changesetNumber);
    }
  }

  /** A plan whose replies are the service's own. */
  predicate RepliesOf(svc: UploadService, plan: UploadPlan)
    requires WellFormed(plan)
  {
    forall j :: 0 <= j < |plan.replies| ==> plan.replies[j] == ReplyTo(svc, j)
  }

  lemma PlanForReplies(cfg: UploadInputs, svc: UploadService, endpoint: string, files: seq<string>)
    ensures RepliesOf(svc, PlanFor(cfg, svc, endpoint, files))
  {
    var plan := PlanFor(cfg, svc, endpoint, files);
    forall j | 0 <= j < |plan.replies|
      ensures plan.replies[j] == ReplyTo(svc, j)
    {
      MapPrefixAt(ReplyOf(svc), Rounds(|files|), |files|, j);
    }
  }

  lemma ReplyIsStatusCheck(svc: UploadService, plan: UploadPlan, j: nat)
    requires WellFormed(plan) && RepliesOf(svc, plan) && j < |plan.replies|
    requires plan.replies[j].StatusChecked?
    ensures svc.uploadId(j).Some?
    ensures plan.replies[j].uploadId == svc.uploadId(j).value
    ensures plan.replies[j].outcome == RoundOutcome(svc, j, svc.uploadId(j).value)
  {
    assert plan.replies[j] == ReplyTo(svc, j);
  }

  /** Request `j` carries the changeset number that round `j - 1`'s status check
      returned for the upload id that round was given. */
  predicate NumberFromPreviousRound(svc: UploadService, sent: seq<UploadRequest>, j: nat)
    requires 0 < j < |sent|
  {
    && svc.uploadId(j - 1).Some?
    && RoundOutcome(svc, j - 1, svc.uploadId(j - 1).value).Ok?
    && sent[j].query.changesetNumber == Some(RoundOutcome(svc, j - 1, svc.uploadId(j - 1).value).value)
  }

  /** The threading of the loop from the first file, read back into the service's
      upload ids and status checks. */
  lemma {:induction false} ThreadingFromStart(cfg: UploadInputs, svc: UploadService, plan: UploadPlan, chset: string)
    requires WellFormed(plan) && RepliesOf(svc, plan)
    ensures |UploadFrom(cfg, svc, plan, 0, chset).sent| <= |plan.files|
    ensures forall j :: 0 < j < |UploadFrom(cfg, svc, plan, 0, chset).sent| ==>
      NumberFromPreviousRound(svc, UploadFrom(cfg, svc, plan, 0, chset).sent, j)
    ensures UploadFrom(cfg, svc, plan, 0, chset).outcome.Ok? && plan.files != [] ==>
      && svc.uploadId(|plan.files| - 1).Some?
      && RoundOutcome(svc, |plan.files| - 1, svc.uploadId(|plan.files| - 1).value) == UploadFrom(cfg, svc, plan, 0, chset).outcome
  {
    UploadFromThreading(cfg, svc, plan, 0, chset);
    var sent := UploadFrom(cfg, svc, plan, 0, chset).sent;
    forall j | 0 < j < |sent|
      ensures NumberFromPreviousRound(svc, sent, j)
    {
      assert CarriesPreviousNumber(plan, 0, sent, j);
      assert 0 + j - 1 == j - 1;
      ReplyIsStatusCheck(svc, plan, j - 1);
    }
    if plan.files != [] && UploadFrom(cfg, svc, plan, 0, chset).outcome.Ok? {
      ReplyIsStatusCheck(svc, plan, |plan.files| - 1);
    }
  }

  /** The changeset number is threaded through the rounds: the first upload carries
      the input changeset, each later one the number the previous status check
      returned, and the run returns the number of the last round. */
  lemma UploadChangesetThreading(cfg: UploadInputs, svc: UploadService, files: seq<string>)
    requires cfg.target in TARGET_KINDS
    ensures |UploadSpec(cfg, svc, files).sent| <= |files|
    ensures |UploadSpec(cfg, svc, files).sent| > 0 ==>
      UploadSpec(cfg, svc, files).sent[0].query.changesetNumber == Some(cfg.changesetNumber)
    ensures forall j :: 0 < j < |UploadSpec(cfg, svc, files).sent| ==>
      NumberFromPreviousRound(svc, UploadSpec(cfg, svc, files).sent, j)
    ensures UploadSpec(cfg, svc, files).outcome.Ok? ==>
      && files != []
      && svc.uploadId(|files| - 1).Some?
      && RoundOutcome(svc, |files| - 1, svc.uploadId(|files| - 1).value) == UploadSpec(cfg, svc, files).outcome
  {
    if files != [] {
      var endpoint := UploadFileEndpoint(cfg.instanceUrl, cfg.target).value;
      var plan := PlanFor(cfg, svc, endpoint, files);
      PlanForReplies(cfg, svc, endpoint, files);
      UploadFromRequests(cfg, svc, plan, 0, cfg.changesetNumber);
      ThreadingFromStart(cfg, svc, plan, cfg.changesetNumber);
      assert UploadSpec(cfg, svc, files) == UploadFrom(cfg, svc, plan, 0, cfg.changesetNumber);
    }
  }
}
