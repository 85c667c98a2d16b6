# Multi-tenant pipeline rollout: a Dafny model

This project models the control logic of a multi-tenant ("silo" or "pool")
deployment system. A registry holds one record per tenant deployment. The
`get-deployments` utility validates every record, tags each valid one with
whether its delivery pipeline exists, and saves the result as a snapshot
file. The `update-deployments` utility reads that snapshot and walks it in
order. For each provisioned deployment it starts the tenant pipeline and
waits for the execution to finish. The wait follows the new execution when a
self-mutating pipeline cancels or supersedes the one being watched. The run
aborts as soon as the error count reaches the error budget, which is 1.

Modules, one per source file:

- `Wrappers` (`wrappers.dfy`): `Option`, `Result`, and `Reply` (a service reply or the exception it raised).
- `Records` (`records.dfy`): the raw `DeploymentRecord`, the tagged `Deployment`, and the one naming rule `PipelineName` (`type-id-pipeline`). The snapshot builder, the coordinator, the provisioning script and the stacks all use that rule.
- `ConfigTools` (`configtools.dfy`): the validator `Validate`, and the snapshot file read (`ReadConfig`) and write (`SaveConfig`) over an abstract file store.
- `GetDeployments` (`get_deployments.dfy`): the snapshot builder. `VerifyAndSaveData` is a loop proved against the specification function `Snapshot`.
- `ApiTools` (`apitools.dfy`): the execution tracker. `WaitPipelineExecution` is a loop proved against the specification function `Track`. `LatestExecutionId` is the Source-stage lookup.
- `UpdateDeployments` (`update_deployments.dfy`): the coordinator. The class `Rollout` holds the `budget`, `errors` and `aborted` fields and a log of started pipelines. `ProcessDeployments` is proved against the specification function `Run`.
- `EndToEnd` (`end_to_end.dfy`): lemmas that join the two utilities.

External services are oracles passed in as values:
- The pipeline service answers a status query for a (pipeline, execution id, poll number) triple.
- The pipeline-state query is answered per (pipeline, poll number).
- Starting a pipeline is answered per pipeline name.
- Any of these calls may raise.

The clock is given as the time elapsed at the first deadline check plus the
duration of each loop iteration. Each iteration lasts at least the 20-second
sleep, and this gives the termination measure of the polling loop.

In these places the model follows the code:
- The validator returns `true` or throws. It does not return a re-typed record.
- It has two errors per attribute: one for missing and one for malformed.
- "Missing" means JavaScript falsiness (absent or `""`).
- The deadline check happens before the 20-second sleep, not after it.
- The check for a start response without an execution id is in the coordinator, not in the tracker.
- Records are processed in the order the registry scan returns them.

## Model

| member | source | states |
|---|---|---|
| `Records.PipelineName` | bin/get-deployments.ts:63 | the pipeline name is the type, a dash, the id, then `-pipeline`, with nothing else in between |
| `Records.PipelineNameInjective` | bin/get-deployments.ts:63 | for the types "silo" and "pool", the name `type-id-pipeline` determines both the type and the id |
| `ConfigTools.Validate` | lib/configtools.ts:54-84 | the result is `Ok` exactly when all four attributes pass their rules (id truthy and free of whitespace, type "pool" or "silo", account exactly 12 ASCII digits, region truthy and in the list); an `Ok` result is always `true`, never `false` |
| `ConfigTools.FirstViolated` | lib/configtools.ts:55-81 | the position of the first rule that does not hold, with every earlier rule holding |
| `ConfigTools.ValidateReportsFirstBrokenRule` | lib/configtools.ts:55-81 | the validator's verdict equals that of the ordered rule table (id, type, account, region): the error of the first broken rule, or `true` |
| `ConfigTools.MissingIdDecides` | lib/configtools.ts:56-57 | a missing or empty id fails with the missing-id error, and two records with that id get the same verdict whatever their other attributes and region lists |
| `ConfigTools.WhitespaceIdDecides` | lib/configtools.ts:58-59 | an id that contains a `\s` character fails with the whitespace error, whatever the other attributes and regions |
| `ConfigTools.TypeRuleDecides` | lib/configtools.ts:63-67 | with a valid id, a type other than "pool" or "silo" fails with the missing-type or invalid-type error, and account and region are not looked at |
| `ConfigTools.AccountRuleDecides` | lib/configtools.ts:70-74 | with a valid id and type, an account that is not 12 ASCII digits fails with the missing-account or account-format error, and the region is not looked at |
| `ConfigTools.RegionRuleDecides` | lib/configtools.ts:77-81 | with the first three rules passing, a region that is missing, empty or not in the list fails with a region error |
| `ConfigTools.ReadConfig` | lib/configtools.ts:24-39 | a missing file (ENOENT) reads as the empty configuration; a written file reads as its contents; any other failure is propagated as an error |
| `ConfigTools.SaveConfig` | lib/configtools.ts:42-51 | the named file afterwards holds the array; every other file is unchanged |
| `ConfigTools.SaveThenRead` | lib/configtools.ts:24-51 | reading a saved snapshot returns exactly the saved array |
| `GetDeployments.Tag` | bin/get-deployments.ts:62-63 | the tagged deployment keeps all four attributes of the record, and `provisioned` holds exactly when `type-id-pipeline` is in the stack list |
| `GetDeployments.VerifyAndSaveData` | bin/get-deployments.ts:52-75 | the loop's output is the snapshot of the records, its rejection log is theirs, and the store afterwards holds the snapshot under `deployments.json` |
| `GetDeployments.SnapshotAppend` | bin/get-deployments.ts:58-69 | the snapshot of a concatenation is the concatenation of the snapshots, so each record is judged on its own |
| `GetDeployments.InvalidRecordSkipped` | bin/get-deployments.ts:66-68 | a record that fails validation is omitted, and the records after it are still processed |
| `GetDeployments.SnapshotElementsValid` | bin/get-deployments.ts:61-64 | every snapshot element passes the validator, and its `provisioned` flag is membership of its pipeline name in the stack list |
| `GetDeployments.AdmittedPositions` | bin/get-deployments.ts:58-69 | the positions of the records the loop keeps are in range and strictly increasing |
| `GetDeployments.AdmittedPositionsExact` | bin/get-deployments.ts:59-64 | a position is kept exactly when the validator admits the record there |
| `GetDeployments.SnapshotAtAdmittedPositions` | bin/get-deployments.ts:61-64 | the snapshot has one entry per kept position, the tagged record at that position |
| `GetDeployments.SnapshotIsAdmittedSubsequence` | bin/get-deployments.ts:58-69 | the snapshot is the admitted records in increasing input position, each tagged; a position is selected exactly when the validator admits that record |
| `GetDeployments.RejectedPositions` | bin/get-deployments.ts:58-69 | the positions of the records the loop logs as rejected are in range and strictly increasing |
| `GetDeployments.RejectedPositionsExact` | bin/get-deployments.ts:59-67 | a position is logged exactly when the validator does not admit the record there |
| `GetDeployments.RejectionsAtRejectedPositions` | bin/get-deployments.ts:65-67 | the rejection log has one entry per rejected position: that record's id and the error the validator raised for it |
| `GetDeployments.RejectionsAreRejectedSubsequence` | bin/get-deployments.ts:58-69 | the rejection log is exactly the rejected records in input order, each with its id and validation error |
| `GetDeployments.SnapshotLength` | bin/get-deployments.ts:56-69 | the snapshot is never longer than the input, and has the same length exactly when every record is admitted |
| `GetDeployments.EveryRecordAccountedFor` | bin/get-deployments.ts:58-69 | each record's position is admitted or rejected and never both, and the snapshot and the rejection log together are as long as the input |
| `GetDeployments.ScenarioDropsInvalidRegion` | bin/get-deployments.ts:58-69 | records [valid, bad region, valid] give the first and third, in order; the silo one whose pipeline exists is provisioned, the other is not |
| `ApiTools.ParseStatus` | lib/apitools.ts:108 | Succeeded, InProgress and Cancelled/Superseded are recognised exactly for their strings; an absent or empty status becomes 'undefined' |
| `ApiTools.FindSourceIndex` | lib/apitools.ts:153 | the first stage named Source, or -1 when no stage has that name |
| `ApiTools.LatestExecutionIdIsFirstSourceStage` | lib/apitools.ts:145-160 | `getLatestPipelineExecutionId` (the function `LatestExecutionId`) returns the latest execution id of the first stage named Source, or nothing when the response has no stages or no Source stage |
| `ApiTools.PollOnce` | lib/apitools.ts:103-140 | one loop iteration observes at most one status, the status the service reports; only a failed status query observes none; when it goes on, the observed status leads to the next execution (the same one after InProgress, the Source stage's latest one after Cancelled/Superseded); it finishes exactly on Succeeded; a bad-status ending carries a status it does not keep polling after; a lost execution follows Cancelled/Superseded with no Source-stage id |
| `ApiTools.PollOnceThrowsOnlyOnRaise` | lib/apitools.ts:105-127 | one loop iteration throws only when the status query raised (observing nothing), or the pipeline-state query after Cancelled/Superseded raised |
| `ApiTools.PollOnceGoesOnWhenItShould` | lib/apitools.ts:110-140 | after InProgress one iteration goes on with the same execution; after a status that leads to an execution it goes on with that one; after any other status but Succeeded it ends with that status |
| `ApiTools.WaitPipelineExecution` | lib/apitools.ts:86-142 | the loop's ending and observed statuses are those of the tracker specification from the first check, deadline `maxWaitSeconds*1000`; it returns `true` exactly when the ending is success |
| `ApiTools.TrackFollowsExecutions` | lib/apitools.ts:105-135 | polls are only appended; the first new one is of the given execution; each reports the service's answer; each next execution is the same id after InProgress or the Source stage's latest id after Cancelled/Superseded |
| `ApiTools.TrackExtends` | lib/apitools.ts:103-140 | the tracker only appends polls: the polls it was given are a prefix of the ones it ends with |
| `ApiTools.TrackSucceedsOnlyOnSucceeded` | lib/apitools.ts:108-114 | the tracker succeeds exactly when it observed a status and the last one was Succeeded |
| `ApiTools.TrackFailureEndings` | lib/apitools.ts:115-140 | a bad-status ending carries the last observed status, which is neither Succeeded nor one it keeps polling after; a lost execution follows Cancelled/Superseded with no Source-stage id |
| `ApiTools.TrackThrowsOnlyOnRaise` | lib/apitools.ts:103-135 | the tracker throws only when a call raised: the status query for the execution it was following (the given one, the same one after InProgress, the Source stage's latest one after Cancelled/Superseded), or the pipeline-state query after Cancelled/Superseded |
| `ApiTools.TrackOnlyStopsOnEnding` | lib/apitools.ts:103-135 | after InProgress, or Cancelled/Superseded with a Source-stage id, the tracker does not stop on its own: it ends only by timeout or because the next status query, for the execution it should follow, raised |
| `ApiTools.TrackDeadline` | lib/apitools.ts:94-102 | time counts from the original start across id switches: every poll happened at a check no later than the deadline, and a timeout means the check after the last poll was past it, with no further poll |
| `ApiTools.ElapsedGrows` | lib/apitools.ts:103 | the elapsed time at check k is at least the first check plus k times 20 s |
| `ApiTools.PollCountBounded` | lib/apitools.ts:94-103 | a wait of maxWaitSeconds polls at most maxWaitSeconds*1000/20000 + 1 times |
| `ApiTools.ScenarioSucceedsAfterProgress` | lib/apitools.ts:110-114 | statuses InProgress, InProgress, Succeeded give success |
| `ApiTools.ScenarioFails` | lib/apitools.ts:136-140 | a status sequence ending in Failed gives a Failed ending |
| `ApiTools.ScenarioFollowsSelfMutation` | lib/apitools.ts:115-135 | Cancelled, then the Source stage naming e2, then e2 Succeeded, gives success after polling e1 then e2 |
| `ApiTools.ScenarioSupersededWithoutSuccessor` | lib/apitools.ts:127-130 | Superseded with no latest id gives the lost-execution ending |
| `ApiTools.ScenarioTimesOut` | lib/apitools.ts:99-102 | a 40 s limit with an execution stuck InProgress polls at 0, 20 and 40 s, then times out without a fourth poll |
| `UpdateDeployments.EachFailureCostsOneError` | bin/update-deployments.ts:60-98 | one deployment adds exactly one error when its start throws, lacks an id, or its wait throws or returns false, and none otherwise; an unprovisioned deployment changes nothing |
| `UpdateDeployments.UnprovisionedAreIgnored` | bin/update-deployments.ts:61-64 | a run over the snapshot equals the run over its provisioned entries alone |
| `UpdateDeployments.RunConsumesPrefix` | bin/update-deployments.ts:52-60 | a run looks at a prefix of the list and stops short of the end only by aborting, right after a failure |
| `UpdateDeployments.RunStartsPrefix` | bin/update-deployments.ts:60-72 | the pipelines a run starts are the `type-id-pipeline` names of the provisioned entries of that prefix, in order |
| `UpdateDeployments.RunCountsPrefix` | bin/update-deployments.ts:70-97 | the errors a run counts are the failures of that prefix |
| `UpdateDeployments.RunProcessesPrefix` | bin/update-deployments.ts:59-99 | a run looks at a prefix of the snapshot in order, each entry once; it starts exactly the `type-id-pipeline` names of that prefix's provisioned entries and counts exactly their failures; it stops early only by aborting, right after a failure |
| `UpdateDeployments.FinishedRunIsWithinBudget` | bin/update-deployments.ts:52-57 | an aborted run has reached the budget; a run that finishes without aborting has errors below the budget, or counted none |
| `UpdateDeployments.RunAbortsWhenBudgetReached` | bin/update-deployments.ts:38-57 | for any budget, a run that starts below it aborts exactly at the first failure that brings the error count to the budget; a run that does not abort stays below the budget |
| `UpdateDeployments.BudgetOneStopsAtFirstFailure` | bin/update-deployments.ts:38-57 | with budget 1, a fresh run aborts exactly when some deployment fails; the first failing deployment is the last one looked at; the error count is 1 on abort and 0 otherwise |
| `UpdateDeployments.Rollout.constructor` | bin/update-deployments.ts:38-39 | a run starts with zero errors, not aborted, with nothing started, under the given budget |
| `UpdateDeployments.Rollout.IncrementErrors` | bin/update-deployments.ts:52-57 | adds one error and sets `aborted` once the count reaches the budget |
| `UpdateDeployments.Rollout.ProcessDeployments` | bin/update-deployments.ts:59-99 | the object's state afterwards is the specified run from its state before |
| `UpdateDeployments.UpdateDeploymentsRun` | bin/update-deployments.ts:36-50 | a snapshot read failure other than a missing file exits 1; otherwise the exit code is 1 exactly when the run aborted; a zero exit means no error was counted |
| `EndToEnd.StartedNamesAreProvisioned` | bin/update-deployments.ts:61-68 | each started name is the `type-id-pipeline` name of a provisioned deployment of the list |
| `EndToEnd.RolloutStartsOnlyExistingPipelines` | bin/get-deployments.ts:63 | the rollout reads back the saved snapshot unchanged; every pipeline it starts is in the stack list the snapshot was tagged against, and belongs to a snapshot entry the validator admits |

## Left out

- The AWS SDK calls `scanDynamoDB`, `getCloudFormationStacks`, `startPipelineExecution` and `getRegions` (lib/apitools.ts:30-84, 163-179) are pagination and client plumbing. Their results are parameters or oracles.
- The `processDeployments` wrapper of `get-deployments` (bin/get-deployments.ts:43-50) only fetches the three inputs of `VerifyAndSaveData`. It is not a separate member. The throw of `getRegions` when no regions are returned ends that utility before any validation, and is not modelled.
- Console logging is left out. The rejection log, the started-pipeline log and the observed polls keep only the information those log lines carry.
- `verifyAndSaveData` sets `provisioned` on the input record object itself. The model builds a new `Deployment` value instead, because nothing reads the input records afterwards.
- The JSON encoding and decoding of the snapshot is taken as the identity. The `build_output` directory is one abstract file store, and `readConfig` and `saveConfig` are taken to name the same file.
- Attribute values of other JavaScript types, such as a number in `id`, are not modelled. Attributes are absent or strings.
- `Date.now` and `setTimeout` are an abstract clock whose iterations last at least 20 s. A clock that goes backwards is not modelled.
- Status strings other than the seven the service defines are kept as `Unrecognized`. They end the wait as failures, as in the code.
- `process.exit(1)` is the `aborted` flag that ends the loop. The exit code appears only in `UpdateDeploymentsRun`.
- async/await, the client objects and the fact that every call runs on one thread are left out, because nothing observable depends on them.
- The CDK stacks and stages (lib/toolchain-stack.ts, lib/workload-pipeline-stack.ts, lib/component-resources-stack.ts, bin/app.ts) declare infrastructure and have no behaviour to verify. Their only shared logic is the naming rule in `Records.PipelineName`.
- The constants in lib/configuration.ts (`DEPLOYMENT_TABLE_NAME`, `REPOSITORY_NAME`, `CDK_VERSION`, `TOOLCHAIN_ENV`) are not used by the modelled code. The 30-minute wait (`DefaultMaxWaitSeconds`) is the default argument at lib/apitools.ts:86, and the budget of 1 (`ErrorBudget`) is `error_budget` at bin/update-deployments.ts:38.
- bin/provision-deployment.ts reads environment variables and shells out to `cdk deploy`. Its reuse of the validator and of the naming rule is covered by `Validate` and `PipelineName`.
- lib/lambdas/stream-lambda/index.js forwards registry inserts to a build project. It is only an external call.
- lib/types.ts is not part of this model. The record shapes follow their use in the modelled files.
