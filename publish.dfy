/** The publish stage: a snapshot is published only when it is not yet published and
    its validation passed. */
module Publish {
  import opened Outcomes
  import opened Text
  import opened Constants
  import opened Resolve

  /** What `publishSnapshot` decides before any request. */
  datatype PublishDecision = AlreadyPublished | NotPassed | PublishNow

  /** A run of `publishSnapshot`: the POSTs it made and what it returned. */
  datatype PublishRun = PublishRun(posts: seq<string>, outcome: Result<bool>)

  /** The gate: the published flag is looked at first, then the validation state. */
  function PublishGate(snapshot: Snapshot, validationStatus: string): (d: PublishDecision)
    ensures d == AlreadyPublished <==> snapshot.publishedStatus == "true"
    ensures d == NotPassed <==> snapshot.publishedStatus != "true" && validationStatus !in VALIDATION_PASS_STATES
    ensures d == PublishNow <==> snapshot.publishedStatus != "true" && validationStatus in VALIDATION_PASS_STATES
  {
    if snapshot.publishedStatus == "true" then AlreadyPublished
    else if validationStatus !in VALIDATION_PASS_STATES then NotPassed
    else PublishNow
  }

  /** The publish endpoint: the template with the sys id put in. */
  function PublishEndpoint(instanceUrl: string, sysId: string): string {
    instanceUrl + ReplaceFirst(CDM_SNAPSHOT_PUBLISH, "%s", sysId)
  }

  /** The sys id goes where the template's placeholder is. */
  lemma PublishEndpointShape(instanceUrl: string, sysId: string)
    ensures PublishEndpoint(instanceUrl, sysId) == instanceUrl + "/api/sn_cdm/snapshots/" + sysId + "/publish"
  {
    var p, q := "/api/sn_cdm/snapshots/", "/publish";
    assert CDM_SNAPSHOT_PUBLISH == p + "%s" + q;
    ReplaceFirstAfter(p, "%s", q, sysId);
  }

  /** `publishSnapshot` with `publishValidatedSnapshot`; `postSucceeds` says whether
      the publish POST succeeds. */
  function PublishSnapshot(instanceUrl: string, validationStatus: string, snapshot: Snapshot, postSucceeds: bool): (r: PublishRun)
    ensures snapshot.publishedStatus == "true" ==> r == PublishRun([], Ok(true))
    ensures snapshot.publishedStatus != "true" && validationStatus !in VALIDATION_PASS_STATES ==> r == PublishRun([], Ok(false))
    ensures snapshot.publishedStatus != "true" && validationStatus in VALIDATION_PASS_STATES ==>
      r.posts == [instanceUrl + "/api/sn_cdm/snapshots/" + snapshot.sysId + "/publish"]
      && r.outcome == if postSucceeds then Ok(true) else Err(RequestFailed)
  {
    match PublishGate(snapshot, validationStatus)
    case AlreadyPublished => PublishRun([], Ok(true))
    case NotPassed => PublishRun([], Ok(false))
    case PublishNow =>
      PublishEndpointShape(instanceUrl, snapshot.sysId);
      PublishRun([PublishEndpoint(instanceUrl, snapshot.sysId)], if postSucceeds then Ok(true) else Err(RequestFailed))
  }

  /** At most one POST is made, and one is made exactly when the snapshot is
      unpublished and passed; a true result without a POST means it was already
      published. */
  lemma PublishAtMostOnce(instanceUrl: string, validationStatus: string, snapshot: Snapshot, postSucceeds: bool)
    ensures var r := PublishSnapshot(instanceUrl, validationStatus, snapshot, postSucceeds);
      && |r.posts| <= 1
      && (|r.posts| == 1 <==> PublishGate(snapshot, validationStatus) == PublishNow)
      && (r.outcome == Ok(true) && r.posts == [] ==> snapshot.publishedStatus == "true")
      && (r.outcome == Ok(false) <==> PublishGate(snapshot, validationStatus) == NotPassed)
  {
  }
}
