/** The action's fixed values: separators, polling budgets, the state sets of the
    three remote state machines, endpoint paths and output names. */
module Constants {

  /** The current name-path separator, a single glyph. It is taken to be U+FFFD:
      the three characters stored in the source are the UTF-8 bytes of U+FFFD
      read back as Latin-1. */
  const NAME_PATH_SEPARATOR: char := '\U{FFFD}'
  const LEGACY_NAME_PATH_SEPARATOR: char := '/'

  // Polling budgets. The two DEFAULT_ values are declared but used by no caller.
  const DEFAULT_MAX_INTERVAL_MILLISECONDS: int := 5000
  const DEFAULT_MAX_ATTEMPTS: int := 25
  const UPLOAD_CONFIG_MAX_INTERVAL_MILLISECONDS: int := 7000
  const UPLOAD_CONFIG_MAX_ATTEMPTS: int := 70
  const SNAPSHOT_VALIDATION_MAX_INTERVAL_MILLISECONDS: int := 60000

  // Snapshot generation, as reported on the changeset record.
  const STATUS_CREATED: string := "created"
  const STATUS_ERROR: string := "error"
  const STATUS_NONE: string := "none"
  const SNAPSHOT_TERMINAL_STATES: set<string> := {"created", "error", "none"}

  // Snapshot validation.
  const REQUESTED: string := "requested"
  const NOT_VALIDATED: string := "not_validated"
  const IN_PROGRESS: string := "in_progress"
  const PASSED: string := "passed"
  const PASSED_WITH_EXCEPTION: string := "passed_with_exception"
  const FAILED: string := "failed"
  const EXECUTION_ERROR: string := "execution_error"
  const VALIDATION_STATES: set<string> :=
    {REQUESTED, NOT_VALIDATED, IN_PROGRESS, PASSED, PASSED_WITH_EXCEPTION, FAILED, EXECUTION_ERROR}
  const VALIDATION_PASS_STATES: set<string> := {"passed", "passed_with_exception"}
  const VALIDATION_TERMINAL_STATES: set<string> :=
    {"not_validated", "passed", "passed_with_exception", "failed", "execution_error"}

  // Upload jobs (declared inline in the upload status check).
  const UPLOAD_TERMINAL_STATES: set<string> := {"completed", "error", "expired"}

  // Endpoint paths, appended to the instance URL.
  const IMPACTED_DEPLOYABLES: string := "/api/sn_cdm/changesets/impacted-deployables"
  const UPLOAD_CONFIG_DATA: string := "/api/sn_cdm/applications/uploads"
  const UPLOAD_STATUS: string := "/api/sn_cdm/applications/upload-status"
  const CDM_CHANGESET_TABLE: string := "/api/now/table/sn_cdm_changeset"
  const CDM_SNAPSHOT_TABLE: string := "/api/now/table/sn_cdm_snapshot"
  const CDM_SNAPSHOT_VALIDATE: string := "/api/sn_cdm/snapshots/%s/validate"
  const CDM_SNAPSHOT_PUBLISH: string := "/api/sn_cdm/snapshots/%s/publish"
  const CDM_POLICY_VALIDATION_RESULT: string := "/api/now/table/sn_cdm_policy_validation_result"

  // Names of the action's outputs and files.
  const VALIDATION_STATUS: string := "validation-status"
  const CHANGESET_NUMBER: string := "changeset-number"
  const SNAPSHOT_NAME: string := "snapshot-name"
  const VALIDATION_RESULTS: string := "validation-results"
  const VALIDATION_RESULTS_SARIF_FILE: string := "validation-results.sarif"
  const VALIDATION_RESULTS_JSON_FILE: string := "validation-results.json"

  /** Both pass states are terminal, so a passing snapshot ends validation polling. */
  lemma PassStatesAreTerminal()
    ensures VALIDATION_PASS_STATES <= VALIDATION_TERMINAL_STATES
    ensures VALIDATION_PASS_STATES <= VALIDATION_STATES
  {
  }

  /** Of the seven named validation states, exactly `requested` and `in_progress`
      are not terminal. */
  lemma NonTerminalValidationStates()
    ensures VALIDATION_STATES - VALIDATION_TERMINAL_STATES == {REQUESTED, IN_PROGRESS}
    ensures VALIDATION_TERMINAL_STATES <= VALIDATION_STATES
  {
  }
}
