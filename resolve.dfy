/** The snapshot stage: decide whether the changeset touched the target deployable,
    wait for the snapshot of the changeset when it did, and look up either that
    snapshot or the latest one of the deployable. */
module Resolve {
  import opened Outcomes
  import opened Text
  import opened Constants
  import opened Utils
  import opened Polling

  /** The action inputs the stage reads; `instanceUrl` is the already trimmed URL. */
  datatype SnapshotInputs = SnapshotInputs(instanceUrl: string, appName: string, deployableName: string, changesetNumber: string)

  /** One entry of the impacted-deployables list; its name can be any value. */
  datatype ImpactedDeployable = ImpactedDeployable(name: JsValue)

  /** One row of the changeset table; only its snapshot status is read. */
  datatype ChangesetRow = ChangesetRow(snapshotStatus: string)

  /** The impacted-deployables reply: the GET threw, or its reply has no `result`
      list, or it has one. */
  datatype ImpactedReply = ImpactedThrew | NoImpactedList | ImpactedList(entries: seq<ImpactedDeployable>)

  /** A reply of the changeset table. `result` is None when the reply is falsy or
      carries no result list. */
  datatype ChangesetResponse = ChangesetResponse(result: Option<seq<ChangesetRow>>)

  /** One row of the snapshot table, with the four fields the lookups read. */
  datatype SnapshotRow = SnapshotRow(sysId: string, name: string, published: string, validation: string)

  /** A reply of the snapshot table, as for the changeset table. */
  datatype SnapshotResponse = SnapshotResponse(result: Option<seq<SnapshotRow>>)

  /** The snapshot record every later stage works on. */
  datatype Snapshot = Snapshot(sysId: string, name: string, publishedStatus: string, validationStatus: string)

  /** A table query: the `field=value` conditions of `sysparm_query`, an optional
      descending sort field, the returned fields and the optional row limit. */
  datatype TableQuery = TableQuery(endpoint: string, conditions: seq<(string, string)>,
                                   orderByDesc: Option<string>, fields: string, limit: Option<string>)

  /** What the stage gets from outside: the impacted-deployables reply, the k-th
      status poll of the changeset,
      the two snapshot lookups (None when the GET throws), and `toLowerCase`. */
  datatype SnapshotService = SnapshotService(
    impacted: ImpactedReply,
    generation: nat -> Attempt<ChangesetResponse>,
    byChangeset: Option<SnapshotResponse>,
    latest: Option<SnapshotResponse>,
    lower: string -> string)

  /** The remote calls of a run, in order. */
  datatype Call =
    | ImpactedDeployablesGet(url: string, changesetNumber: string)
    | GenerationPolls(requests: nat, sleeps: seq<int>)
    | SnapshotGet(query: TableQuery)

  /** The warning about other impacted deployables, with their names. */
  datatype ImpactWarning =
    | AlsoImpacted(deployableName: string, others: seq<string>)
    | NotImpacted(deployableName: string, changesetNumber: string, others: seq<string>)

  /** `isDeployableImpacted`'s answer and the warning it emitted. */
  datatype ImpactCheck = ImpactCheck(impacted: bool, warning: Option<ImpactWarning>)

  /** A lookup's result and the `snapshot-name` output it set. */
  datatype Lookup = Lookup(outcome: Result<Snapshot>, output: Option<(string, string)>)

  /** A run of `fetchSnapshot`. */
  datatype ResolveRun = ResolveRun(calls: seq<Call>, warning: Option<ImpactWarning>, outcome: Result<Snapshot>, output: Option<(string, string)>)

  /** `String(v)`. */
  function JsString(v: JsValue): string {
    match v
    case Null => "null"
    case Undefined => "undefined"
    case Str(s) => s
    case Arr(items) => Join(items, ",")
  }

  /** The entry has a name, and that name is the target's, ignoring case. */
  predicate NamesTarget(entry: ImpactedDeployable, deployableName: string, lower: string -> string) {
    !IsEmpty(entry.name) && lower(JsString(entry.name)) == lower(deployableName)
  }

  /** The entry has a name, and that name is not the target's, ignoring case. */
  predicate NamesOther(entry: ImpactedDeployable, deployableName: string, lower: string -> string) {
    !IsEmpty(entry.name) && lower(JsString(entry.name)) != lower(deployableName)
  }

  /** The `filter` for other impacted deployables: the entries naming another
      deployable, in list order. */
  function OtherImpacted(entries: seq<ImpactedDeployable>, deployableName: string, lower: string -> string): (r: seq<ImpactedDeployable>)
    ensures |r| <= |entries|
    ensures forall e :: e in r ==> e in entries && NamesOther(e, deployableName, lower)
    ensures forall e :: e in entries && NamesOther(e, deployableName, lower) ==> e in r
  {
    if entries == [] then []
    else
      var rest := OtherImpacted(entries[1..], deployableName, lower);
      assert forall e :: e in entries ==> e == entries[0] || e in entries[1..];
      if NamesOther(entries[0], deployableName, lower) then [entries[0]] + rest else rest
  }

  /** The filter's structure, which fixes its value: nothing from nothing, one entry
      kept exactly when it names another deployable, and a concatenation filtered
      piece by piece, so the entries keep their order and multiplicity. */
  lemma {:induction false} OtherImpactedFilter(a: seq<ImpactedDeployable>, b: seq<ImpactedDeployable>, e: ImpactedDeployable,
                                               deployableName: string, lower: string -> string)
    ensures OtherImpacted([], deployableName, lower) == []
    ensures OtherImpacted([e], deployableName, lower) == (if NamesOther(e, deployableName, lower) then [e] else [])
    ensures OtherImpacted(a + b, deployableName, lower) == OtherImpacted(a, deployableName, lower) + OtherImpacted(b, deployableName, lower)
    decreases |a|
  {
    assert [e][1..] == [];
    if a == [] {
      assert a + b == b;
    } else {
      assert (a + b)[0] == a[0];
      assert (a + b)[1..] == a[1..] + b;
      OtherImpactedFilter(a[1..], b, e, deployableName, lower);
    }
  }

  /** The `some` for the target: whether an entry names it. */
  function AnyNamesTarget(entries: seq<ImpactedDeployable>, deployableName: string, lower: string -> string): (r: bool)
    ensures r <==> exists i :: 0 <= i < |entries| && NamesTarget(entries[i], deployableName, lower)
  {
    if entries == [] then false
    else if NamesTarget(entries[0], deployableName, lower) then true
    else
      var r := AnyNamesTarget(entries[1..], deployableName, lower);
      assert forall i :: 1 <= i < |entries| ==> entries[i] == entries[1..][i - 1];
      r
  }

  function NamesOf(entries: seq<ImpactedDeployable>): (names: seq<string>)
    ensures |names| == |entries|
  {
    seq(|entries|, i requires 0 <= i < |entries| => JsString(entries[i].name))
  }

  /** `isDeployableImpacted`: a GET that throws fails the stage, and so does a reply
      without a result list, whose `filter` is read off undefined; otherwise the
      answer is whether an entry names the target, and a warning is emitted exactly
      when some entry names another deployable, saying whether the target was among
      them. */
  function IsDeployableImpacted(reply: ImpactedReply, deployableName: string, changesetNumber: string,
                                lower: string -> string): (r: Result<ImpactCheck>)
    ensures r == Err(RequestFailed) <==> reply.ImpactedThrew?
    ensures r == Err(PropertyOfUndefined("filter")) <==> reply.NoImpactedList?
    ensures r.Ok? <==> reply.ImpactedList?
    ensures r.Ok? ==> r.value.impacted == AnyNamesTarget(reply.entries, deployableName, lower)
    ensures r.Ok? ==> (r.value.warning.Some? <==> OtherImpacted(reply.entries, deployableName, lower) != [])
    ensures r.Ok? && r.value.warning.Some? ==> (r.value.warning.value.AlsoImpacted? <==> r.value.impacted)
    ensures r.Ok? && r.value.warning.Some? ==> r.value.warning.value.others == NamesOf(OtherImpacted(reply.entries, deployableName, lower))
  {
    match reply
    case ImpactedThrew => Err(RequestFailed)
    case NoImpactedList => Err(PropertyOfUndefined("filter"))
    case ImpactedList(entries) =>
      var others := OtherImpacted(entries, deployableName, lower);
      var primary := AnyNamesTarget(entries, deployableName, lower);
      var warning :=
        if IsArrayEmpty(Arr(NamesOf(others))) then None
        else if primary then Some(AlsoImpacted(deployableName, NamesOf(others)))
        else Some(NotImpacted(deployableName, changesetNumber, NamesOf(others)));
      Ok(ImpactCheck(primary, warning))
  }

  /** The condition the generation poll waits for: a first row whose snapshot status
      is terminal. */
  function GenerationCheck(response: ChangesetResponse): Check {
    if response.result.None? || response.result.value == [] then NotMet
    else if response.result.value[0].snapshotStatus in SNAPSHOT_TERMINAL_STATES then Met
    else NotMet
  }

  /** The generation poll stops on a reply exactly when its first row's status is
      `created`, `error` or `none`; a reply without rows, or with any other status,
      keeps it going. */
  lemma GenerationPollStops(response: ChangesetResponse)
    ensures GenerationCheck(response) != Threw
    ensures GenerationCheck(response) == Met <==>
      response.result.Some? && response.result.value != []
      && response.result.value[0].snapshotStatus in {STATUS_CREATED, STATUS_ERROR, STATUS_NONE}
  {
  }

  /** A reply that ends the generation poll, and the status it carries. */
  predicate Terminal(a: Attempt<ChangesetResponse>) {
    Satisfied(a, GenerationCheck)
  }

  function TerminalStatus(a: Attempt<ChangesetResponse>): string
    requires Terminal(a)
  {
    a.response.result.value[0].snapshotStatus
  }

  /** The mapping of `waitForSnapshotGeneration` from the poll result to its outcome. */
  function GenerationOutcome(response: Option<ChangesetResponse>, changesetNumber: string): Result<string> {
    match response
    case None => Err(SnapshotGenerationPending(changesetNumber))
    case Some(r) =>
      if r.result.None? || r.result.value == [] then Err(SnapshotGenerationPending(changesetNumber))
      else if r.result.value[0].snapshotStatus == STATUS_ERROR then Err(SnapshotGenerationFailed(changesetNumber))
      else Ok(r.result.value[0].snapshotStatus)
  }

  /** The generation poll, with the poller's default budget. */
  function GenerationPoll(polls: nat -> Attempt<ChangesetResponse>): PollRun<ChangesetResponse> {
    PollSpec(polls, GenerationCheck, DEFAULT_POLL_ATTEMPTS, DEFAULT_POLL_INTERVAL)
  }

  /** `waitForSnapshotGeneration`. */
  method WaitForSnapshotGeneration(polls: nat -> Attempt<ChangesetResponse>, changesetNumber: string)
    returns (outcome: Result<string>, requests: nat, sleeps: seq<int>)
    ensures var run := GenerationPoll(polls);
      outcome == GenerationOutcome(run.response, changesetNumber) && requests == run.requests && sleeps == run.sleeps
  {
    var response;
    response, requests, sleeps := ExponentialPolling(polls, GenerationCheck, DEFAULT_POLL_ATTEMPTS, DEFAULT_POLL_INTERVAL);
    outcome := GenerationOutcome(response, changesetNumber);
  }

  /** Reply k is the first of the ten that ends the poll. */
  predicate FirstTerminal(polls: nat -> Attempt<ChangesetResponse>, k: nat) {
    k < DEFAULT_POLL_ATTEMPTS && Terminal(polls(k)) && forall m :: 0 <= m < k ==> !Terminal(polls(m))
  }

  /** Waiting for generation fails as pending when none of the ten replies is
      terminal; otherwise the first terminal reply decides: status `error` fails,
      and any other status, which is then `created` or `none`, is returned. */
  lemma GenerationResult(polls: nat -> Attempt<ChangesetResponse>, changesetNumber: string)
    ensures var out := GenerationOutcome(GenerationPoll(polls).response, changesetNumber);
      && ((forall k :: 0 <= k < DEFAULT_POLL_ATTEMPTS ==> !Terminal(polls(k))) <==> out == Err(SnapshotGenerationPending(changesetNumber)))
      && (forall k :: FirstTerminal(polls, k) ==>
            out == if TerminalStatus(polls(k)) == STATUS_ERROR then Err(SnapshotGenerationFailed(changesetNumber))
                   else Ok(TerminalStatus(polls(k))))
      && (out.Ok? ==> out.value in {STATUS_CREATED, STATUS_NONE})
  {
    PollResult(polls, GenerationCheck, DEFAULT_POLL_ATTEMPTS, DEFAULT_POLL_INTERVAL);
    var run := GenerationPoll(polls);
    if run.response.Some? {
      var j := run.requests - 1;
      assert Terminal(polls(j));
      forall k: nat | FirstTerminal(polls, k)
        ensures k == j
      {
      }
    }
  }

  /** `isSnapshotGenerated`. */
  function IsSnapshotGenerated(snapshotStatus: string): bool {
    snapshotStatus == STATUS_CREATED
  }

  /** The `sysparm_query` string a query is sent with: the conditions joined by `^`,
      then the sort clause. */
  function EncodedQuery(q: TableQuery): string {
    Join(ConditionStrings(q.conditions), "^")
    + (if q.orderByDesc.Some? then "^ORDERBYDESC" + q.orderByDesc.value else "")
  }

  function ConditionStrings(conditions: seq<(string, string)>): seq<string> {
    if conditions == [] then [] else [conditions[0].0 + "=" + conditions[0].1] + ConditionStrings(conditions[1..])
  }

  const SNAPSHOT_FIELDS: string := "sys_id,name,validation,published,sys_created_on"

  /** The latest-snapshot lookup: one row for the application and deployable, newest
      first. */
  function LatestSnapshotQuery(instanceUrl: string, appName: string, deployableName: string): (q: TableQuery)
    ensures q.endpoint == instanceUrl + CDM_SNAPSHOT_TABLE
  {
    TableQuery(instanceUrl + CDM_SNAPSHOT_TABLE,
      [("cdm_application_id.name", appName), ("cdm_deployable_id.name", deployableName)],
      Some("sys_created_on"), SNAPSHOT_FIELDS, Some("1"))
  }

  /** The by-changeset lookup: the snapshot of the changeset and deployable, unsorted
      and unlimited. */
  function ChangesetSnapshotQuery(instanceUrl: string, deployableName: string, changesetNumber: string): (q: TableQuery)
    ensures q.endpoint == instanceUrl + CDM_SNAPSHOT_TABLE
  {
    TableQuery(instanceUrl + CDM_SNAPSHOT_TABLE,
      [("changeset_id.number", changesetNumber), ("cdm_deployable_id.name", deployableName)],
      None, SNAPSHOT_FIELDS, None)
  }

  /** The latest lookup filters by application and then deployable, sorts by creation
      time descending and asks for a single row; the by-changeset lookup filters by
      changeset and deployable only. */
  lemma LookupQueries(instanceUrl: string, appName: string, deployableName: string, changesetNumber: string)
    ensures EncodedQuery(LatestSnapshotQuery(instanceUrl, appName, deployableName))
      == "cdm_application_id.name" + "=" + appName + "^" + "cdm_deployable_id.name" + "=" + deployableName + "^ORDERBYDESC" + "sys_created_on"
    ensures LatestSnapshotQuery(instanceUrl, appName, deployableName).limit == Some("1")
    ensures EncodedQuery(ChangesetSnapshotQuery(instanceUrl, deployableName, changesetNumber))
      == "changeset_id.number" + "=" + changesetNumber + "^" + "cdm_deployable_id.name" + "=" + deployableName
    ensures ChangesetSnapshotQuery(instanceUrl, deployableName, changesetNumber).limit == None
  {
    TwoConditions("cdm_application_id.name", appName, "cdm_deployable_id.name", deployableName);
    TwoConditions("changeset_id.number", changesetNumber, "cdm_deployable_id.name", deployableName);
  }

  lemma TwoConditions(f1: string, v1: string, f2: string, v2: string)
    ensures Join(ConditionStrings([(f1, v1), (f2, v2)]), "^") == f1 + "=" + v1 + "^" + f2 + "=" + v2
  {
    var conditions := [(f1, v1), (f2, v2)];
    assert conditions[1..][1..] == [];
    assert ConditionStrings(conditions[1..]) == [f2 + "=" + v2];
    assert ConditionStrings(conditions) == [f1 + "=" + v1, f2 + "=" + v2];
  }

  /** What both lookups do with their reply: the first row becomes the snapshot, and
      its name the `snapshot-name` output; no row is the error `notFound`. */
  function SnapshotFromReply(reply: Option<SnapshotResponse>, notFound: Error): Lookup {
    match reply
    case None => Lookup(Err(RequestFailed), None)
    case Some(r) =>
      if r.result.None? || r.result.value == [] then Lookup(Err(notFound), None)
      else
        var row := r.result.value[0];
        Lookup(Ok(Snapshot(row.sysId, row.name, row.published, row.validation)), Some((SNAPSHOT_NAME, row.name)))
  }

  /** `getLatestSnapshot`. */
  function GetLatestSnapshot(reply: Option<SnapshotResponse>, appName: string, deployableName: string): Lookup {
    SnapshotFromReply(reply, LatestSnapshotNotFound(deployableName, appName))
  }

  /** `getSnapshotByChangesetNumber` as written: its not-found message names
      `appName`, which is not in scope there, so building the message throws a
      ReferenceError instead. */
  function GetSnapshotByChangesetNumberAsWritten(reply: Option<SnapshotResponse>, deployableName: string, changesetNumber: string): Lookup {
    SnapshotFromReply(reply, UndefinedVariable("appName"))
  }

  /** `getSnapshotByChangesetNumber` with the application name in scope, as its
      message evidently intends. */
  function GetSnapshotByChangesetNumber(reply: Option<SnapshotResponse>, appName: string, deployableName: string, changesetNumber: string): Lookup {
    SnapshotFromReply(reply, ChangesetSnapshotNotFound(changesetNumber, deployableName, appName))
  }

  /** A lookup succeeds exactly when its reply has a row; it then returns the first
      row's four fields and sets `snapshot-name` to its name, and otherwise sets
      nothing and fails with `notFound`, or as a failed request. */
  lemma SnapshotFromReplyResult(reply: Option<SnapshotResponse>, notFound: Error)
    ensures var l := SnapshotFromReply(reply, notFound);
      && (l.outcome.Ok? <==> reply.Some? && reply.value.result.Some? && reply.value.result.value != [])
      && (l.outcome.Ok? ==>
            var row := reply.value.result.value[0];
            l.outcome.value == Snapshot(row.sysId, row.name, row.published, row.validation)
            && l.output == Some((SNAPSHOT_NAME, row.name)))
      && (l.outcome.Err? ==> l.output == None)
      && (reply.Some? && l.outcome.Err? ==> l.outcome.error == notFound)
  {
  }

  /** As written, a changeset with no snapshot row fails with a ReferenceError on
      `appName` rather than the not-found error naming the changeset; with the name
      in scope it fails with that error. */
  lemma ChangesetLookupMessage(appName: string, deployableName: string, changesetNumber: string)
    ensures var empty := Some(SnapshotResponse(Some([])));
      && GetSnapshotByChangesetNumberAsWritten(empty, deployableName, changesetNumber).outcome == Err(UndefinedVariable("appName"))
      && GetSnapshotByChangesetNumber(empty, appName, deployableName, changesetNumber).outcome
         == Err(ChangesetSnapshotNotFound(changesetNumber, deployableName, appName))
  {
  }

  /** What `fetchSnapshot` does. */
  function FetchSpec(inputs: SnapshotInputs, svc: SnapshotService): ResolveRun {
    var impactCall := ImpactedDeployablesGet(inputs.instanceUrl + IMPACTED_DEPLOYABLES, inputs.changesetNumber);
    var latestQuery := LatestSnapshotQuery(inputs.instanceUrl, inputs.appName, inputs.deployableName);
    var latest := GetLatestSnapshot(svc.latest, inputs.appName, inputs.deployableName);
    match IsDeployableImpacted(svc.impacted, inputs.deployableName, inputs.changesetNumber, svc.lower)
    case Err(e) => ResolveRun([impactCall], None, Err(e), None)
    case Ok(check) =>
      if !check.impacted then
        ResolveRun([impactCall, SnapshotGet(latestQuery)], check.warning, latest.outcome, latest.output)
      else
        var poll := GenerationPoll(svc.generation);
        var pollCall := GenerationPolls(poll.requests, poll.sleeps);
        match GenerationOutcome(poll.response, inputs.changesetNumber)
        case Err(e) => ResolveRun([impactCall, pollCall], check.warning, Err(e), None)
        case Ok(status) =>
          if IsSnapshotGenerated(status) then
            var byChangeset := GetSnapshotByChangesetNumberAsWritten(svc.byChangeset, inputs.deployableName, inputs.changesetNumber);
            ResolveRun([impactCall, pollCall, SnapshotGet(ChangesetSnapshotQuery(inputs.instanceUrl, inputs.deployableName, inputs.changesetNumber))],
              check.warning, byChangeset.outcome, byChangeset.output)
          else
            ResolveRun([impactCall, pollCall, SnapshotGet(latestQuery)], check.warning, latest.outcome, latest.output)
  }

  /** `fetchSnapshot`: the impact check, then, only for an impacted deployable, the
      wait for generation, then one of the two lookups. */
  method FetchSnapshot(inputs: SnapshotInputs, svc: SnapshotService) returns (run: ResolveRun)
    ensures run == FetchSpec(inputs, svc)
  {
    var impactCall := ImpactedDeployablesGet(inputs.instanceUrl + IMPACTED_DEPLOYABLES, inputs.changesetNumber);
    var checkOrError := IsDeployableImpacted(svc.impacted, inputs.deployableName, inputs.changesetNumber, svc.lower);
    if checkOrError.Err? {
      return ResolveRun([impactCall], None, Err(checkOrError.error), None);
    }
    var check := checkOrError.value;
    var calls := [impactCall];
    var generated := false;
    if check.impacted {
      var status, requests, sleeps := WaitForSnapshotGeneration(svc.generation, inputs.changesetNumber);
      calls := calls + [GenerationPolls(requests, sleeps)];
      if status.Err? {
        return ResolveRun(calls, check.warning, Err(status.error), None);
      }
      generated := IsSnapshotGenerated(status.value);
    }
    if generated {
      var lookup := GetSnapshotByChangesetNumberAsWritten(svc.byChangeset, inputs.deployableName, inputs.changesetNumber);
      calls := calls + [SnapshotGet(ChangesetSnapshotQuery(inputs.instanceUrl, inputs.deployableName, inputs.changesetNumber))];
      run := ResolveRun(calls, check.warning, lookup.outcome, lookup.output);
    } else {
      var lookup := GetLatestSnapshot(svc.latest, inputs.appName, inputs.deployableName);
      calls := calls + [SnapshotGet(LatestSnapshotQuery(inputs.instanceUrl, inputs.appName, inputs.deployableName))];
      run := ResolveRun(calls, check.warning, lookup.outcome, lookup.output);
    }
  }

  /** When no entry names the target, generation is not waited for: the run makes the
      impact GET and then the latest-snapshot lookup, and returns what that returns. */
  lemma FetchNotImpacted(inputs: SnapshotInputs, svc: SnapshotService)
    requires svc.impacted.ImpactedList?
    requires forall i :: 0 <= i < |svc.impacted.entries| ==> !NamesTarget(svc.impacted.entries[i], inputs.deployableName, svc.lower)
    ensures var run := FetchSpec(inputs, svc);
      && |run.calls| == 2 && run.calls[1] == SnapshotGet(LatestSnapshotQuery(inputs.instanceUrl, inputs.appName, inputs.deployableName))
      && (forall c :: c in run.calls ==> !c.GenerationPolls?)
      && run.outcome == GetLatestSnapshot(svc.latest, inputs.appName, inputs.deployableName).outcome
  {
  }

  /** When an entry names the target, generation is waited for with the default
      budget; a failed wait ends the run with its error; status `created` selects the
      by-changeset lookup as written, and `none` the latest one. */
  lemma FetchImpacted(inputs: SnapshotInputs, svc: SnapshotService)
    requires svc.impacted.ImpactedList?
    requires exists i :: 0 <= i < |svc.impacted.entries| && NamesTarget(svc.impacted.entries[i], inputs.deployableName, svc.lower)
    ensures var run := FetchSpec(inputs, svc);
      var poll := GenerationPoll(svc.generation);
      var generation := GenerationOutcome(poll.response, inputs.changesetNumber);
      && |run.calls| >= 2 && run.calls[1] == GenerationPolls(poll.requests, poll.sleeps)
      && (generation.Err? ==> |run.calls| == 2 && run.outcome == Err(generation.error) && run.output == None)
      && (generation == Ok(STATUS_CREATED) ==>
            run.calls[2..] == [SnapshotGet(ChangesetSnapshotQuery(inputs.instanceUrl, inputs.deployableName, inputs.changesetNumber))]
            && run.outcome == GetSnapshotByChangesetNumberAsWritten(svc.byChangeset, inputs.deployableName, inputs.changesetNumber).outcome)
      && (generation == Ok(STATUS_NONE) ==>
            run.calls[2..] == [SnapshotGet(LatestSnapshotQuery(inputs.instanceUrl, inputs.appName, inputs.deployableName))]
            && run.outcome == GetLatestSnapshot(svc.latest, inputs.appName, inputs.deployableName).outcome)
  {
  }

  /** A generated snapshot that the by-changeset lookup does not find fails the run
      with the ReferenceError of the not-found message, not with that message. */
  lemma FetchChangesetWithoutSnapshot(inputs: SnapshotInputs, svc: SnapshotService)
    requires svc.impacted.ImpactedList?
    requires exists i :: 0 <= i < |svc.impacted.entries| && NamesTarget(svc.impacted.entries[i], inputs.deployableName, svc.lower)
    requires GenerationOutcome(GenerationPoll(svc.generation).response, inputs.changesetNumber) == Ok(STATUS_CREATED)
    requires svc.byChangeset == Some(SnapshotResponse(Some([])))
    ensures FetchSpec(inputs, svc).outcome == Err(UndefinedVariable("appName"))
    ensures FetchSpec(inputs, svc).output == None
  {
    FetchImpacted(inputs, svc);
  }

  /** A failed impact GET ends the run before anything else is called, and so does a
      reply without a result list, with the TypeError of reading `filter`. */
  lemma FetchImpactRequestFails(inputs: SnapshotInputs, svc: SnapshotService)
    requires !svc.impacted.ImpactedList?
    ensures FetchSpec(inputs, svc) == ResolveRun([ImpactedDeployablesGet(inputs.instanceUrl + IMPACTED_DEPLOYABLES, inputs.changesetNumber)], None,
      Err(if svc.impacted.ImpactedThrew? then RequestFailed else PropertyOfUndefined("filter")), None)
  {
  }
}
