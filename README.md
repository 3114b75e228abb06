# devops-config-validate, modelled in Dafny

This is a model of the ServiceNow "DevOps Config Validate" GitHub action. One run of
the action does the following in order, and any stage can stop it:

1. It uploads configuration files to a DevOps Config application. Each file is
   posted, then its upload job is polled until it completes. The changeset number
   passes from one upload to the next.
2. It works out which configuration snapshot the changeset produced. It checks
   whether the changeset touched the target deployable. If it did, it waits for the
   snapshot to be generated. It then looks up either that changeset's snapshot or
   the deployable's latest one.
3. It triggers validation of the snapshot, unless the snapshot is already published.
   It then polls until the validation state is terminal.
4. It publishes the snapshot when auto-publish is on, the snapshot is unpublished
   and its validation passed.
5. It fetches the policy results of the snapshot. It keeps the first row of each
   policy, emits error annotations, and builds a JSON report and a SARIF 2.1.0 log.
6. It fails the run on a non-passing validation when asked to.

Every stage waits with the same exponential backoff poller. The poller doubles its
interval before each sleep, and stops at the first response whose check is met or
when its attempt budget runs out.

The model has one module per source file. Each module is written in the form of its
source:

- The poller's attempt loop, the upload loop, the result loop and the stage
  sequence of `main` are methods with loops.
- Each method is proved equal to a functional specification (`PollSpec`,
  `UploadSpec`, `FetchSpec`, `ValidateSpec`, `GenerateSpec`, `ResultsSpec`,
  `ActionSpec`).
- The properties the action promises are lemmas about those specifications.

Every remote service is an oracle handed to the model: the k-th reply of a poll,
whether a POST succeeds, the rows of a table lookup. A thrown error becomes an `Err`
of the `Outcomes.Error` datatype, with one variant per thrown message. The model
records the requests made, the delays slept, the outputs set and the warnings
emitted; nothing is performed.

Modules:

| module | source | what it holds |
|---|---|---|
| `Outcomes` | (all) | `Option`, `Result`, and the errors the action throws |
| `Text` | | `trim`, `split`/`join`, `replace`, `endsWith` over `seq<char>` |
| `Constants` | `src/lib/constants.js` | separators, state sets, endpoints, output names |
| `Utils` | `src/lib/utils.js` | name-path normalisation, `isEmpty`, `isArrayEmpty` |
| `Polling` | `src/lib/do-polling.js` | the exponential backoff poller |
| `Upload` | `src/lib/upload-config.js` | the upload loop and its status checks |
| `Resolve` | `src/lib/fetch-snapshot.js` | impact check, generation wait, snapshot lookups |
| `Validate` | `src/lib/validate-snapshot.js` | the validation trigger and wait |
| `Publish` | `src/lib/publish-snapshot.js` | the publish gate and request |
| `Results` | `src/lib/validation-results.js` | the results fetch, report and SARIF log |
| `Action` | `src/main.js` | input checks and the stage sequence |

Two facts about the results stage shape the model:

- The stage keeps the first row of each policy, in the order the service returns
  them, using a set of seen names (`src/lib/validation-results.js:80-98`). It does
  not group rows by failed, warning and passed state. It annotates only
  non-compliant policies and policies with no output. The SARIF log has one rule and
  one result per non-compliant kept row, with no separate warning level.
- No stage sorts the results. The results query has no ordering clause.

## Model

| member | source | states |
|---|---|---|
| Constants.PassStatesAreTerminal | src/lib/constants.js:15-26 | both passing validation states are terminal, so a passing snapshot ends validation polling |
| Constants.NonTerminalValidationStates | src/lib/constants.js:17-26 | of the seven named validation states, exactly `requested` and `in_progress` are outside the terminal set, which holds only named states |
| Text.TrimStart | src/main.js:35 | the result is a suffix of the input that starts with a non-blank, and only whitespace was removed |
| Text.TrimEnd | src/main.js:35 | the result is a prefix of the input that ends with a non-blank, and only whitespace was removed |
| Text.TrimEnds | src/main.js:35 | a trimmed string is empty or has a non-blank character at each end |
| Text.TrimEmptyIff | src/lib/utils.js:59 | a string trims to nothing exactly when all of it is whitespace |
| Text.ReplaceChar | src/lib/utils.js:23 | same length, with each occurrence of one character replaced and every other character kept |
| Text.SplitPiecesFree | src/lib/utils.js:23 | no piece of `split(c)` contains `c` |
| Text.SplitJoinIsReplace | src/lib/utils.js:23 | `split(c).join(d)` equals replacing every `c` by `d` |
| Text.ReplaceFirstAfter | src/lib/publish-snapshot.js:47 | `replace` on a template replaces the placeholder that follows a prefix free of its first character |
| Utils.IsEmpty | src/lib/utils.js:58-60 | true exactly for null, undefined and all-whitespace strings; never for an array |
| Utils.IsArrayEmpty | src/lib/utils.js:67-69 | true exactly for null, undefined and a zero-length array; false for every other value, strings included |
| Utils.TrimTrailingNodeSeparator | src/lib/utils.js:48-51 | a prefix of the input, one shorter exactly when the input ends in the separator |
| Utils.GetNamePathForStringifiedArray | src/lib/utils.js:32-41 | an array exactly when the parse yields one; otherwise the input string unchanged |
| Utils.NormalizeNamePath | src/lib/utils.js:8-25 | a string comes back as a string; an array comes back as a string or unchanged |
| Utils.JoinIsSegments | src/lib/utils.js:20 | the separator followed by the joined items equals each item led by the separator |
| Utils.NormalizeFalsy | src/lib/utils.js:9-10 | falsy values and the empty array come back unchanged |
| Utils.NormalizeCanonical | src/lib/utils.js:13-14 | a string holding the separator loses at most one trailing separator, keeps every `/`, and is never parsed |
| Utils.NormalizeStringifiedArray | src/lib/utils.js:16-20 | a stringified array becomes its separator-led segments; `[]` gives the lone separator |
| Utils.NormalizeArray | src/lib/utils.js:19-20 | a non-empty array becomes its separator-led segments |
| Utils.NormalizeLegacy | src/lib/utils.js:23-24 | any other string has every `/` replaced by the separator and loses one trailing separator exactly when it ended in `/`; no `/` remains |
| Utils.NormalizeLegacyExample | src/lib/utils.js:23-24 | `a/b/c` becomes `a`, `b`, `c` joined by the separator |
| Utils.NormalizeCanonicalExample | src/lib/utils.js:13-14 | a canonical path with a trailing separator loses only that separator |
| Utils.NormalizeArrayExample | src/lib/utils.js:19-20 | `["a","b"]` becomes the separator-led `a` and `b` |
| Polling.ExponentialPolling | src/lib/do-polling.js:3-35 | the attempt loop returns the response, request count and delays of the poller's specification |
| Polling.RunOnResult | src/lib/do-polling.js:11-23 | the loop returns the first satisfying answer and makes no request after it; with none, one request per answer and null |
| Polling.RunOnSleeps | src/lib/do-polling.js:25-31 | one delay after each failed, non-last attempt; the i-th delay is the interval doubled i+1 times |
| Polling.PollResult | src/lib/do-polling.js:11-34 | the first response in attempt order that meets the check is returned; at most `maxAttempts` requests, exactly that many and null when none meets it; throws only use up an attempt |
| Polling.PollNoAttempts | src/lib/do-polling.js:11-34 | with no attempts allowed, nothing is requested and null is returned |
| Polling.PollSleeps | src/lib/do-polling.js:25-31 | the sleep after attempt k is `initialInterval * 2^k`, with none after a success or the last attempt |
| Polling.SumOfDoublings | src/lib/do-polling.js:25-31 | the n delays `interval * 2^(from+i+1)` sum to `interval * (2^(from+n+1) - 2^(from+1))` |
| Polling.PollTotalSleepOnExhaustion | src/lib/do-polling.js:9-31 | on exhaustion the poller has slept `initialInterval * (2^maxAttempts - 2)` in all |
| Polling.PollBoundaryCases | src/lib/do-polling.js:11-34 | a satisfying first answer ends polling without a sleep; a never-met check uses exactly `maxAttempts` requests |
| Upload.UploadFileEndpoint | src/lib/upload-config.js:137-152 | component, collection and deployable map to their pluralised upload paths; any other target is refused |
| Upload.EffectiveNamePath | src/lib/upload-config.js:202-208 | the name path always ends with the file's base name, and is exactly that name when the name-path input is blank |
| Upload.NameBase | src/lib/upload-config.js:205-206 | there is a base exactly when the name-path input is not blank |
| Upload.EffectiveNamePathCases | src/lib/upload-config.js:202-208 | a blank input gives the base name alone; any other gives the normalised input (a string), the separator, then the base name, and that normalised input is the base |
| Upload.SetNamePathForCurrentRequest | src/lib/upload-config.js:202-211 | the query gets the file's name path and nothing else in it changes |
| Upload.CheckUploadStatus | src/lib/upload-config.js:98-128 | polls the job with 70 attempts from 7000 ms and maps the result as the status specification does |
| Upload.UploadStatusAfterPolling | src/lib/upload-config.js:115-126 | completed gives the changeset number; only state `error` gives the generic upload failure; no terminal reply in 70 polls fails as not processed; at most 70 requests |
| Upload.UploadConfig | src/lib/upload-config.js:31-65 | the requests and outcome are those of the upload specification, and success sets the final changeset number as `changeset-number` |
| Upload.UploadFiles | src/lib/upload-config.js:53-62 | the loop sends exactly the requests the specification's rounds send from the first file, and ends as they do |
| Upload.UploadFile | src/lib/upload-config.js:54-61 | one pass performs round i of the specification and changes only autoCommit, changeset number and name path on the shared query |
| Upload.PlanDetermined | src/lib/upload-config.js:47-62 | the files, name paths and replies the loop works through are fixed by the inputs |
| Upload.UploadFromRequests | src/lib/upload-config.js:53-62 | from file i on, at most one request per remaining file, one per file on success; the k-th is round i+k's and the first carries the given changeset |
| Upload.UploadFromThreading | src/lib/upload-config.js:48-64 | each later round carries the number the previous status check returned; success returns the last round's number |
| Upload.UploadRejectsEarly | src/lib/upload-config.js:45-51 | an unknown target or an empty file match fails before any upload |
| Upload.RequestForIsUpload | src/lib/upload-config.js:56-59 | round j's request is the upload of file j: endpoint, content, name path, fixed fields, autoCommit on the last file only |
| Upload.RequestsFromStart | src/lib/upload-config.js:53-62 | every request sent from the first file is the upload of its file |
| Upload.UploadRequestsInFileOrder | src/lib/upload-config.js:53-62 | uploads go out in file order, at most one per file and one per file on success, each the upload of its file |
| Upload.PlanForReplies | src/lib/upload-config.js:60-61 | the replies of the plan are the service's upload ids and status checks |
| Upload.ReplyIsStatusCheck | src/lib/upload-config.js:60-61 | round j's outcome is the POST failure, or the status check of the upload id it returned |
| Upload.ThreadingFromStart | src/lib/upload-config.js:58-61 | request j carries the number round j-1's status check returned |
| Upload.UploadChangesetThreading | src/lib/upload-config.js:48-64 | the first upload carries the input changeset, each later one the previous status check's number; success returns the last |
| Resolve.OtherImpacted | src/lib/fetch-snapshot.js:54 | every entry kept names another deployable (case-insensitively), every such entry is kept, and the result is no longer than the list |
| Resolve.OtherImpactedFilter | src/lib/fetch-snapshot.js:54 | the filter of the empty list is empty, one entry is kept exactly when it names another deployable, and a concatenation is filtered piece by piece, so the kept entries keep the list's order and multiplicity |
| Resolve.AnyNamesTarget | src/lib/fetch-snapshot.js:56 | true exactly when some entry names the target deployable |
| Resolve.IsDeployableImpacted | src/lib/fetch-snapshot.js:42-76 | a throwing GET fails with the request error, and a reply without a result list fails with the TypeError of reading `filter`; otherwise impacted iff an entry names the target, and a warning iff some entry names another, saying whether the target was among them, with their names in list order |
| Resolve.WaitForSnapshotGeneration | src/lib/fetch-snapshot.js:85-118 | the generation poll with the default budget, mapped as the generation specification does |
| Resolve.GenerationPollStops | src/lib/fetch-snapshot.js:89-94 | the generation check never throws, and is met exactly when the reply has a first row whose status is `created`, `error` or `none` |
| Resolve.GenerationResult | src/lib/fetch-snapshot.js:89-117 | no terminal reply in ten fails as pending; otherwise the first terminal reply decides: `error` fails, `created` or `none` is returned |
| Resolve.LookupQueries | src/lib/fetch-snapshot.js:150-184 | the exact `sysparm_query` strings: application then deployable, newest first, limit 1; changeset then deployable |
| Resolve.TwoConditions | src/lib/fetch-snapshot.js:150-152 | two conditions encode as `f1=v1^f2=v2` |
| Resolve.SnapshotFromReplyResult | src/lib/fetch-snapshot.js:160-167 | a lookup succeeds exactly when its reply has a row, returning the first row and setting `snapshot-name`; otherwise no output and the not-found error or a failed request |
| Resolve.ChangesetLookupMessage | src/lib/fetch-snapshot.js:190-191 | as written an empty by-changeset lookup fails with a ReferenceError; corrected it fails with the not-found error naming the changeset |
| Resolve.FetchSnapshot | src/lib/fetch-snapshot.js:15-32 | the method makes the calls and gives the outcome of the fetch specification, whose by-changeset branch is the lookup as written |
| Resolve.FetchNotImpacted | src/lib/fetch-snapshot.js:22-30 | not impacted: no generation wait; the impact GET, then the latest lookup, whose result is returned |
| Resolve.FetchImpacted | src/lib/fetch-snapshot.js:22-29 | impacted: the wait comes second; a failed wait ends the run; `created` selects the by-changeset lookup as written, `none` the latest |
| Resolve.FetchChangesetWithoutSnapshot | src/lib/fetch-snapshot.js:22-25 | an impacted changeset whose snapshot was created but whose by-changeset lookup finds no row ends the fetch with the ReferenceError and no output |
| Resolve.FetchImpactRequestFails | src/lib/fetch-snapshot.js:49-54 | a failed impact GET, or a reply without a result list, ends the run before any other call, with the request error or the TypeError respectively |
| Validate.Ceil | src/lib/validate-snapshot.js:72 | the smallest integer not below its argument |
| Validate.ValidationAttemptsIsCeiling | src/lib/validate-snapshot.js:71-72 | the attempt budget is the timeout in minutes rounded up, at least one for a positive timeout |
| Validate.ValidateEndpointShape | src/lib/validate-snapshot.js:43 | the trigger URL is the snapshot path with the sys id and `/validate` |
| Validate.WaitForSnapshotValidation | src/lib/validate-snapshot.js:64-90 | the validation poll with the derived budget from 60000 ms, mapped to its outcome |
| Validate.ValidationPollContinues | src/lib/validate-snapshot.js:68-70 | polling goes on exactly for a state outside the terminal set, an unrecognised state included; of the named states only `requested` and `in_progress`; a reply without a record throws |
| Validate.ValidationResult | src/lib/validate-snapshot.js:68-89 | the first terminal reply's state is returned, and it is terminal; with none in the budget it fails naming the sys id |
| Validate.ValidationTotalSleepOnExhaustion | src/lib/validate-snapshot.js:71-82 | on exhaustion the wait is `60000 * (2^ceil(timeout) - 2)` ms, which grows geometrically with the timeout |
| Validate.ValidateSnapshot | src/lib/validate-snapshot.js:16-32 | the method makes the calls and sets the output of the validate specification |
| Validate.ValidatePublished | src/lib/validate-snapshot.js:22-26 | a published snapshot is neither triggered nor polled; its state is returned and set as output |
| Validate.ValidateUnpublished | src/lib/validate-snapshot.js:27-31 | otherwise one trigger comes first, a poll with `ceil(timeout)` attempts follows when the trigger succeeds, and a success gives a terminal state, set as output |
| Publish.PublishGate | src/lib/publish-snapshot.js:24-32 | already published, not passed, or publish now, each exactly in its case, published flag first |
| Publish.PublishEndpointShape | src/lib/publish-snapshot.js:47 | the publish URL is the snapshot path with the sys id and `/publish` |
| Publish.PublishSnapshot | src/lib/publish-snapshot.js:16-35 | true without a POST when published; false without a POST when not passed; one POST otherwise, true or a failed request |
| Publish.PublishAtMostOnce | src/lib/publish-snapshot.js:24-34 | at most one POST, made exactly when the gate says publish, and false exactly when validation did not pass |
| Results.FailureCount | src/lib/validation-results.js:88-90 | the failure count is present exactly when `failures` is not an empty array |
| Results.Annotate | src/lib/validation-results.js:86-96 | at most one annotation: non-compliant iff the decision is `non_compliant`, with a count iff failures are present; not executed iff otherwise the output is empty, null included |
| Results.NullOutputAnnotation | src/lib/validation-results.js:86-96 | on a null output the step as written fails while the intended step reports the policy as not executed |
| Results.FirstIndices | src/lib/validation-results.js:80-85 | the increasing positions of the first rows of their policies |
| Results.FirstsAtIndices | src/lib/validation-results.js:80-85 | the kept rows are the rows at those positions, one each |
| Results.FirstsDistinct | src/lib/validation-results.js:83-85 | the kept rows have pairwise distinct policy names |
| Results.FirstsCover | src/lib/validation-results.js:83-85 | every row's policy has its first row among the kept rows |
| Results.FirstsKeepAllIff | src/lib/validation-results.js:80-85 | every row is kept exactly when no two rows share a policy name |
| Results.ScanStops | src/lib/validation-results.js:80-96 | after a thrown error, later rows change nothing |
| Results.StepFailure | src/lib/validation-results.js:81-86 | one turn throws exactly on an output that does not parse, or on a null output of an unseen policy, with the parse error or the TypeError |
| Results.ScanStep | src/lib/validation-results.js:81-86 | from a running loop, row i throws exactly when it does not parse or is the first of its policy and parses to null, with that row's error |
| Results.ScanFailure | src/lib/validation-results.js:80-96 | the loop fails exactly when some row does not parse or is the first row of its policy and parses to null, with the error of the first such row: the parse error, or the TypeError naming its policy |
| Results.FirstIffUnseen | src/lib/validation-results.js:83 | a row is the first of its policy exactly when its name is not among the names before it |
| Results.ScanKeepsFirsts | src/lib/validation-results.js:80-85 | while nothing has thrown, the loop keeps exactly the first row of each policy and has seen exactly the names so far |
| Results.ScanAnnotations | src/lib/validation-results.js:86-96 | while nothing has thrown, the loop has emitted the annotations of the kept rows, in order |
| Results.NonCompliantRowsMembers | src/lib/validation-results.js:110-113 | a kept row is in the SARIF selection exactly when it is non-compliant |
| Results.SarifShape | src/lib/validation-results.js:100-147 | SARIF 2.1.0 with one run; rules and results pair up one to one with matching ids; each result is a failure at the snapshot carrying the output; each rule is at level error |
| Results.CountAppend | src/lib/validation-results.js:86-93 | counting non-compliant annotations distributes over concatenation |
| Results.AnnotationsMatchSarif | src/lib/validation-results.js:86-133 | each non-compliant annotation has one SARIF rule and one result |
| Results.VisitRow | src/lib/validation-results.js:80-97 | the `forEach` callback does one turn of the scan as written and keeps the seen set equal to the kept rows' names |
| Results.StoppedSpec | src/lib/validation-results.js:80-97 | once a row has thrown, the stage ends with that error and the annotations emitted before it |
| Results.GenerateValidationResults | src/lib/validation-results.js:68-158 | the method's loop, report and SARIF log are those of the generate specification, whose loop throws as written |
| Results.KeptOutputsParse | src/lib/validation-results.js:81-131 | when no row throws, every kept row's output is truthy and parses to something other than null, so the SARIF filters read `decision` without throwing |
| Results.ReportFields | src/lib/validation-results.js:72-77 | the report carries the snapshot's id and name, `published` as true for a published snapshot or else the publish result, and the validation state |
| Results.GeneratedResults | src/lib/validation-results.js:80-150 | fails exactly when some row does not parse or is the first of its policy and parses to null, with the first such row's parse error or TypeError; otherwise the first row of each policy in response order, each truthy and not null, their annotations, and one SARIF entry per non-compliant annotation |
| Results.ResultsQueryShape | src/lib/validation-results.js:43-46 | the query selects the snapshot's latest results, unsorted and unlimited |
| Results.FetchValidationResults | src/lib/validation-results.js:18-30 | the method sends the query, warns, and produces the results of the results specification, whose generation step throws as written |
| Results.EmptyResultsOnlyWarn | src/lib/validation-results.js:52-55 | an empty list warns and still succeeds with an empty report and SARIF log; a reply without a list warns and fails |
| Action.NormalizeUrl | src/main.js:35-37 | a prefix of the trimmed URL, one shorter exactly when it ends in `/` |
| Action.NormalizeCanonicalUrl | src/main.js:35-37 | a canonical URL is unchanged, and so is its form with a trailing slash |
| Action.StagesOfFor | src/main.js:42-104 | each stage of the run is the module specification applied to what the previous stage produced |
| Action.RunAction | src/main.js:10-112 | `main`'s run is the action specification: the timeout check, then the stages in one `try` |
| Action.RunStages | src/main.js:42-65 | the upload and the stop on auto-commit or auto-validate are as the flow specifies |
| Action.RunFromFetch | src/main.js:67-72 | the fetch, on the changeset the upload ended on, is as the flow specifies |
| Action.RunFromValidate | src/main.js:76-80 | the validation of the fetched snapshot is as the flow specifies |
| Action.RunFromPublish | src/main.js:82-107 | the optional publish, the results and the termination flag are as the flow specifies |
| Action.ActionTimeoutGate | src/main.js:31-33 | an invalid timeout fails with the timeout error before any stage; a valid one runs at least the upload |
| Action.FlowStageOrder | src/main.js:42-104 | the stages run in the fixed order, the later ones only with auto-commit and auto-validate, publish exactly with auto-publish |
| Action.FlowFailure | src/main.js:109-110 | every stage but the last succeeded; a last stage that threw is the failure; no failure means all succeeded |
| Action.FlowTermination | src/main.js:106-107 | with all stages successful the run fails only when the termination flag is on and validation did not pass, naming the snapshot and state |
| Action.FlowThreading | src/main.js:42-104 | each stage works on what the previous one produced, with false as the publish status when there was no publish |
| Action.StagesReportPublishing | src/main.js:82-104 | the action's publish stage reports true exactly when the snapshot is published or passed, and the report records it |
| Action.FlowReportsPublished | src/main.js:82-104 | the report marks the snapshot published exactly when it already was, or auto-publish is on and it passed |

## Left out

- `src/lib/do-request.js`, `src/lib/do-devops-request.js` and `src/lib/auth-header.js` are not part of this model. Each HTTP call is an oracle reply, or a success flag, in the stage's service datatype. Credentials and headers are not modelled.
- `@actions/core` is not modelled. `getInput` values are given strings, so its `required` check and its trimming are not modelled. Log, info, debug and warning messages are reduced to the warning kind and the values they name. `setOutput` and `setFailed` become output pairs and the failing `Error`.
- Writing `validation-results.json` and `validation-results.sarif`, and `JSON.stringify`, are out of scope. The report and the SARIF log are values.
- Sleeping is not performed. The poller returns the delays it asks for.
- Globs and file reads are inputs. The matched files are a sequence, `readFile` is an oracle that fails when reading throws, and `path.basename` is an abstract function.
- `JSON.parse` is an oracle (`parse`, `parseArray`), and so is `toLowerCase` (`lower`). `Results.GeneratedResults` and `Results.AnnotationsMatchSarif` assume only that the parse treats null, undefined and the empty string as `JSON.parse` does.
- `Number`, `isNaN` and floating-point arithmetic are not modelled. The timeout is an exact real, produced by a `toNumber` oracle. Validate.ValidationAttemptsIsCeiling: with exact reals the attempt count is exactly `ceil(timeout)`. In IEEE doubles, `timeout*60*1000/60000` can round just above an integer for some inputs and give one more attempt, which the model does not capture.
- `String.prototype.replace` is modelled with a literal replacement string. The `$` substitution patterns of a sys id are not interpreted.
- `upload-config.js:7`, `fetch-snapshot.js:2` and `validate-snapshot.js:2` import `{ polling }` from a module that only exports `exponentialPolling` (`src/lib/do-polling.js:37`). Every call site is modelled as calling `exponentialPolling` with the arguments given. The binding failure at run time is not modelled, because nothing here models module loading.
- The current separator is taken to be U+FFFD, a single character. The `src/lib/constants.js:1` text holds three characters, the UTF-8 bytes of U+FFFD read as Latin-1, while `src/lib/utils.js:4` documents a single glyph. If the three characters are the runtime value, `slice(0, -1)` at `src/lib/utils.js:49` removes only one of them, and the model does not capture that.
- `for ... in` over the file array is modelled as iteration over the indices. The loose comparison `files.length - 1 == index` is modelled as integer equality, which it coerces to.
- Upload.UploadFiles: an upload reply without an `upload_id` is not distinguished from a failed POST. Both are an absent upload id, while the source would go on to poll `.../undefined`.
- The poller's check reads fields of the reply. A reply whose field is missing, so that reading it throws, is modelled as a check that throws (`Check.Threw`), not by modelling property access.
- The upload loop is split into a loop method (`Upload.UploadFiles`) and a pass method (`Upload.UploadFile`). `main` is split into one method per stage (`Action.RunStages`, `Action.RunFromFetch`, `Action.RunFromValidate`, `Action.RunFromPublish`). The order of the awaits is unchanged.
- Results.Annotate: the corrected step fixes only the read of `decision` at `src/lib/validation-results.js:86`. The stage itself (`Results.GenerateSpec`, `Results.GenerateValidationResults`) is modelled as written, so a null first row throws. A corrected stage is not modelled: it would also need the SARIF filters at `src/lib/validation-results.js:110-111` and `130-131` to guard a kept row whose output is the text `null`, since they read `decision` of its parse too.
- Resolve.IsDeployableImpacted: a reply body that is itself null or undefined, whose `result` read would throw a TypeError of its own, is not told apart from a reply without a result list. An entry whose `name` is not a string, null, undefined or an array of strings is not modelled.
- Resolve.GetSnapshotByChangesetNumber: the corrected lookup is stated and proved on its own. The fetch (`Resolve.FetchSpec`, `Resolve.FetchSnapshot`) uses the lookup as written, so an empty by-changeset reply ends the fetch with the ReferenceError.
- Validate.ValidationTotalSleepOnExhaustion: the timeout input bounds the number of attempts, not the total wait. The lemma states the actual total instead of a bound the code does not keep.

## Findings

| source | as written | input that shows it | evidently intended | confidence | as-written member | corrected member |
|---|---|---|---|---|---|---|
| src/lib/fetch-snapshot.js:190-191 | the not-found message of `getSnapshotByChangesetNumber` interpolates `appName`, which is not a parameter or variable in scope there, so building the message throws a ReferenceError | a by-changeset lookup whose reply has an empty `result` list | fail with the not-found error naming the changeset, the deployable and the application | not executed | Resolve.GetSnapshotByChangesetNumberAsWritten (shown by Resolve.ChangesetLookupMessage) | Resolve.GetSnapshotByChangesetNumber |
| src/lib/validation-results.js:86-96 | `JSON.parse(output).decision` is read before the `isEmpty` test, so a parsed `null` throws a TypeError and the policy is never reported as not executed | a first row of a policy whose `policy_execution.output` is the text `null` | report the policy as not executed, as the `isEmpty` branch does for empty outputs; the SARIF filters at lines 110-111 and 130-131 would then need the same guard | not executed | Results.AnnotateAsWritten (shown by Results.NullOutputAnnotation) | Results.Annotate |
