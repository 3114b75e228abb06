/** The validation stage: an unpublished snapshot has its validation triggered and is
    then polled until its validation state is terminal, with an attempt budget
    derived from the timeout input. */
module Validate {
  import opened Outcomes
  import opened Text
  import opened Constants
  import opened Polling
  import opened Resolve

  /** A poll of the snapshot record: its `validation` field, None when the reply
      has no result record (reading the field then throws). */
  datatype ValidationResponse = ValidationResponse(validation: Option<string>)

  /** What the stage gets from outside: whether the trigger POST succeeds, and the
      k-th poll of the snapshot record. */
  datatype ValidateService = ValidateService(triggerSucceeds: bool, polls: nat -> Attempt<ValidationResponse>)

  /** The remote calls of a run, in order. */
  datatype ValidateCall =
    | TriggerValidation(url: string)
    | ValidationPolls(url: string, maxAttempts: int, requests: nat, sleeps: seq<int>)

  /** A run of `validateSnapshot`: its calls, its result and the
      `validation-status` output it set. */
  datatype ValidateRun = ValidateRun(calls: seq<ValidateCall>, outcome: Result<string>, output: Option<(string, string)>)

  /** The smallest integer not below `x`: `Math.ceil`. */
  function Ceil(x: real): (n: int)
    ensures n as real - 1.0 < x <= n as real
  {
    -((-x).Floor)
  }

  /** The poll budget for a timeout in minutes: the timeout in milliseconds divided
      by the 60000 ms interval, rounded up. */
  function ValidationAttempts(timeoutMin: real): int {
    Ceil(timeoutMin * 60.0 * 1000.0 / SNAPSHOT_VALIDATION_MAX_INTERVAL_MILLISECONDS as real)
  }

  /** Because the interval is one minute, the budget is the timeout in minutes
      rounded up: at least one attempt for any positive timeout, and one per
      started minute. */
  lemma ValidationAttemptsIsCeiling(timeoutMin: real)
    ensures ValidationAttempts(timeoutMin) == Ceil(timeoutMin)
    ensures ValidationAttempts(timeoutMin) as real - 1.0 < timeoutMin <= ValidationAttempts(timeoutMin) as real
    ensures timeoutMin > 0.0 ==> ValidationAttempts(timeoutMin) >= 1
  {
    assert timeoutMin * 60.0 * 1000.0 / 60000.0 == timeoutMin;
  }

  /** The condition the validation poll waits for: a terminal validation state. A
      reply without a record makes the check throw. */
  function ValidationCheck(response: ValidationResponse): Check {
    match response.validation
    case None => Threw
    case Some(v) => if v in VALIDATION_TERMINAL_STATES then Met else NotMet
  }

  /** The validation poll goes on for a reply exactly when its state is not in the
      terminal set, an unrecognised state included; of the named states, only
      `requested` and `in_progress` keep it going. A reply without a record makes
      the check throw, which also uses up the attempt. */
  lemma ValidationPollContinues(v: string)
    ensures ValidationCheck(ValidationResponse(Some(v))) == NotMet <==> v !in VALIDATION_TERMINAL_STATES
    ensures ValidationCheck(ValidationResponse(Some(v))) == Met <==> v in VALIDATION_TERMINAL_STATES
    ensures v in VALIDATION_STATES ==> (ValidationCheck(ValidationResponse(Some(v))) == NotMet <==> v in {REQUESTED, IN_PROGRESS})
    ensures ValidationCheck(ValidationResponse(None)) == Threw
  {
    NonTerminalValidationStates();
  }

  /** The validate trigger endpoint: the template with the sys id put in. */
  function ValidateEndpoint(instanceUrl: string, sysId: string): string {
    instanceUrl + ReplaceFirst(CDM_SNAPSHOT_VALIDATE, "%s", sysId)
  }

  /** The snapshot record the poll reads. */
  function SnapshotRecordUrl(instanceUrl: string, sysId: string): string {
    instanceUrl + CDM_SNAPSHOT_TABLE + "/" + sysId
  }

  /** The sys id goes where the template's placeholder is. */
  lemma ValidateEndpointShape(instanceUrl: string, sysId: string)
    ensures ValidateEndpoint(instanceUrl, sysId) == instanceUrl + "/api/sn_cdm/snapshots/" + sysId + "/validate"
  {
    var p, q := "/api/sn_cdm/snapshots/", "/validate";
    assert CDM_SNAPSHOT_VALIDATE == p + "%s" + q;
    ReplaceFirstAfter(p, "%s", q, sysId);
  }

  /** The validation poll for a timeout. */
  function ValidationPoll(polls: nat -> Attempt<ValidationResponse>, timeoutMin: real): PollRun<ValidationResponse> {
    PollSpec(polls, ValidationCheck, ValidationAttempts(timeoutMin), SNAPSHOT_VALIDATION_MAX_INTERVAL_MILLISECONDS)
  }

  /** The mapping of `waitForSnapshotValidation` from the poll result to its outcome:
      no result fails naming the sys id, and a result gives its validation state. */
  function ValidationOutcome(response: Option<ValidationResponse>, sysId: string): Result<string> {
    match response
    case None => Err(SnapshotNotValidated(sysId))
    case Some(r) => if r.validation.Some? then Ok(r.validation.value) else Err(SnapshotNotValidated(sysId))
  }

  /** `waitForSnapshotValidation`. */
  method WaitForSnapshotValidation(polls: nat -> Attempt<ValidationResponse>, sysId: string, timeoutMin: real)
    returns (outcome: Result<string>, requests: nat, sleeps: seq<int>)
    ensures var run := ValidationPoll(polls, timeoutMin);
      outcome == ValidationOutcome(run.response, sysId) && requests == run.requests && sleeps == run.sleeps
  {
    var maxAttempts := ValidationAttempts(timeoutMin);
    var response;
    response, requests, sleeps := ExponentialPolling(polls, ValidationCheck, maxAttempts, SNAPSHOT_VALIDATION_MAX_INTERVAL_MILLISECONDS);
    if response.None? {
      outcome := Err(SnapshotNotValidated(sysId));
    } else {
      outcome := ValidationOutcome(response, sysId);
    }
  }

  /** A poll reply that ends validation polling. */
  predicate TerminalReply(a: Attempt<ValidationResponse>) {
    Satisfied(a, ValidationCheck)
  }

  /** Waiting gives the validation state of the first reply whose state is terminal,
      and that state is terminal; with no such reply within the budget it fails
      naming the sys id. */
  lemma ValidationResult(polls: nat -> Attempt<ValidationResponse>, sysId: string, timeoutMin: real)
    ensures var out := ValidationOutcome(ValidationPoll(polls, timeoutMin).response, sysId);
      var n := ValidationAttempts(timeoutMin);
      && (out.Ok? ==> out.value in VALIDATION_TERMINAL_STATES)
      && (out.Err? <==> forall k :: 0 <= k < n ==> !TerminalReply(polls(k)))
      && (out.Err? ==> out.error == SnapshotNotValidated(sysId))
      && (forall k: nat :: k < n && TerminalReply(polls(k)) && (forall m :: 0 <= m < k ==> !TerminalReply(polls(m))) ==>
            out == Ok(polls(k).response.validation.value))
  {
    var n := ValidationAttempts(timeoutMin);
    PollResult(polls, ValidationCheck, n, SNAPSHOT_VALIDATION_MAX_INTERVAL_MILLISECONDS);
    var run := ValidationPoll(polls, timeoutMin);
    if run.response.Some? {
      var j := run.requests - 1;
      assert TerminalReply(polls(j));
      forall k: nat | k < n && TerminalReply(polls(k)) && (forall m :: 0 <= m < k ==> !TerminalReply(polls(m)))
        ensures k == j
      {
      }
    }
  }

  /** On exhaustion the poll has slept 60000 * (2^n - 2) ms for a budget of n
      attempts: the wait grows geometrically with the timeout rather than staying
      within it. */
  lemma ValidationTotalSleepOnExhaustion(polls: nat -> Attempt<ValidationResponse>, timeoutMin: real)
    requires timeoutMin > 0.0
    requires forall k :: 0 <= k < ValidationAttempts(timeoutMin) ==> !TerminalReply(polls(k))
    ensures Sum(ValidationPoll(polls, timeoutMin).sleeps)
      == SNAPSHOT_VALIDATION_MAX_INTERVAL_MILLISECONDS * (Pow2(Ceil(timeoutMin)) - 2)
  {
    ValidationAttemptsIsCeiling(timeoutMin);
    PollTotalSleepOnExhaustion(polls, ValidationCheck, ValidationAttempts(timeoutMin), SNAPSHOT_VALIDATION_MAX_INTERVAL_MILLISECONDS);
  }

  /** What `validateSnapshot` does. */
  function ValidateSpec(instanceUrl: string, snapshot: Snapshot, timeoutMin: real, svc: ValidateService): ValidateRun {
    if snapshot.publishedStatus == "true" then
      ValidateRun([], Ok(snapshot.validationStatus), Some((VALIDATION_STATUS, snapshot.validationStatus)))
    else
      var trigger := TriggerValidation(ValidateEndpoint(instanceUrl, snapshot.sysId));
      if !svc.triggerSucceeds then ValidateRun([trigger], Err(RequestFailed), None)
      else
        var poll := ValidationPoll(svc.polls, timeoutMin);
        var calls := [trigger, ValidationPolls(SnapshotRecordUrl(instanceUrl, snapshot.sysId), ValidationAttempts(timeoutMin), poll.requests, poll.sleeps)];
        match ValidationOutcome(poll.response, snapshot.sysId)
        case Err(e) => ValidateRun(calls, Err(e), None)
        case Ok(status) => ValidateRun(calls, Ok(status), Some((VALIDATION_STATUS, status)))
  }

  /** `validateSnapshot`: a published snapshot keeps its validation state; any other is
      triggered, then polled. */
  method ValidateSnapshot(instanceUrl: string, snapshot: Snapshot, timeoutMin: real, svc: ValidateService)
    returns (run: ValidateRun)
    ensures run == ValidateSpec(instanceUrl, snapshot, timeoutMin, svc)
  {
    if snapshot.publishedStatus == "true" {
      return ValidateRun([], Ok(snapshot.validationStatus), Some((VALIDATION_STATUS, snapshot.validationStatus)));
    }
    var trigger := TriggerValidation(ValidateEndpoint(instanceUrl, snapshot.sysId));
    if !svc.triggerSucceeds {
      return ValidateRun([trigger], Err(RequestFailed), None);
    }
    var status, requests, sleeps := WaitForSnapshotValidation(svc.polls, snapshot.sysId, timeoutMin);
    var calls := [trigger, ValidationPolls(SnapshotRecordUrl(instanceUrl, snapshot.sysId), ValidationAttempts(timeoutMin), requests, sleeps)];
    if status.Err? {
      return ValidateRun(calls, Err(status.error), None);
    }
    run := ValidateRun(calls, status, Some((VALIDATION_STATUS, status.value)));
  }

  /** A published snapshot is neither triggered nor polled: its validation state
      is returned and set as output as it is. */
  lemma ValidatePublished(instanceUrl: string, snapshot: Snapshot, timeoutMin: real, svc: ValidateService)
    requires snapshot.publishedStatus == "true"
    ensures ValidateSpec(instanceUrl, snapshot, timeoutMin, svc).calls == []
    ensures ValidateSpec(instanceUrl, snapshot, timeoutMin, svc).outcome == Ok(snapshot.validationStatus)
    ensures ValidateSpec(instanceUrl, snapshot, timeoutMin, svc).output == Some((VALIDATION_STATUS, snapshot.validationStatus))
  {
  }

  /** Any other snapshot is triggered exactly once, before the poll, which gets
      ceil(timeout) attempts from 60000 ms; the returned state is terminal and is the
      one set as output. */
  lemma ValidateUnpublished(instanceUrl: string, snapshot: Snapshot, timeoutMin: real, svc: ValidateService)
    requires snapshot.publishedStatus != "true"
    ensures var run := ValidateSpec(instanceUrl, snapshot, timeoutMin, svc);
      && 1 <= |run.calls| <= 2
      && run.calls[0] == TriggerValidation(instanceUrl + "/api/sn_cdm/snapshots/" + snapshot.sysId + "/validate")
      && (forall j :: 1 <= j < |run.calls| ==> run.calls[j].ValidationPolls?)
      && (|run.calls| == 2 <==> svc.triggerSucceeds)
      && (|run.calls| == 2 ==> run.calls[1].maxAttempts == Ceil(timeoutMin))
      && (run.outcome.Ok? ==>
            run.outcome.value in VALIDATION_TERMINAL_STATES && run.output == Some((VALIDATION_STATUS, run.outcome.value)))
      && (run.outcome.Err? ==> run.output == None)
  {
    ValidateEndpointShape(instanceUrl, snapshot.sysId);
    ValidationAttemptsIsCeiling(timeoutMin);
    ValidationResult(svc.polls, snapshot.sysId, timeoutMin);
  }
}
