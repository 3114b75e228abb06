/** The value-level shape of the action's control flow: optional values, and the
    typed result that replaces the source's thrown errors. */
module Outcomes {

  datatype Option<+T> = None | Some(value: T)

  /** Every error the action throws, one variant per thrown message; the fields are
      the values the message names. */
  datatype Error =
    | InvalidTimeout(timeout: string)
    | InvalidTarget(target: string)
    | NoFilesFound(configFilePath: string)
    | FileReadFailed(file: string)
    | RequestFailed
    | UploadNotProcessed(uploadId: string)
    | UploadExpired(uploadId: string)
    | UploadFailed(output: string)
    | SnapshotGenerationPending(changesetNumber: string)
    | SnapshotGenerationFailed(changesetNumber: string)
    | LatestSnapshotNotFound(deployableName: string, appName: string)
    | ChangesetSnapshotNotFound(changesetNumber: string, deployableName: string, appName: string)
    | UndefinedVariable(name: string)
    | SnapshotNotValidated(sysId: string)
    | InvalidPolicyOutput(policyName: string)
    | PropertyOfNull(policyName: string)
    | PropertyOfUndefined(property: string)
    | MissingResults
    | ValidationFailed(snapshotName: string, validationStatus: string)

  datatype Result<+T> = Ok(value: T) | Err(error: Error)
}
