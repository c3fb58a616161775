# ROSA trusted actions: a verified model

The service accepts requests to run trusted actions on managed clusters, queues them in a table, and lets a pool of
workers run them: authorize, obtain narrowly scoped access, act, audit, store the result. This project models that
path and the stateful algorithms around it in Dafny, and proves what they promise for all inputs and all runs.

`dafny verify dfyconfig.toml` checks everything.

## Structure

**The execution queue** (`internal/worker`, `internal/store`)

- `ExecutionTable.dfy`: the two tables as values, their order, the output rewrite.
- `PoolModel.dfy`: creators, workers, one-slot channel, shutdown and store as a step machine. Each event is one
  atomic section; the choices (which ready case, which parked worker, which row) are part of the event, so that runs
  are all interleavings. The Postgres claim is split into snapshot, row lock, UPDATE and COMMIT or rollback; the
  SQLite claim, which owns the only connection, is one event.
- `PoolSafety.dfy`, `PoolTheorems.dfy`: the invariant, and exclusivity, wakeups, life cycle, drain and shutdown.
- `PoolResults.dfy`: what the tables hold of an execution that has ended is what its own runner returned.
- `ClaimRefinement.dfy`: overtaking; the Postgres machine refines a queue whose claim looks and then takes; when that is the
  one-step claim.
- `Pool.dfy`: the pool as an object with fields; it keeps the run that its calls make, so every theorem about runs holds of
  it after any calls.
- `TimeText.dfy`, `TimeTextRange.dfy`, `SqliteOrder.dfy`, `Lexicographic.dfy`: timestamps as text, calendar included;
  `Calendar.dfy` checks both against the closed form of the Gregorian day count and the layout's character positions.

**The execution pipeline** (`internal/executor`, `internal/actions`, `internal/authorization`, `internal/backplane`)

- `Authorization.dfy`, `Rbac.dfy`, `KubeActions.dfy`: the policies, the access request, and the requests of the
  Kubernetes actions against a cluster that may answer anything. `AwsGet.dfy`: what aws-get accepts.
- `PipelineModel.dfy`, `Pipeline.dfy`, `Executor.dfy`: targets, scopes, write actions, the audited Execute and the
  runner. What the outside answers is arbitrary; methods return the calls they made, each with its answer.
- `PipelineTheorems.dfy`, `KubeOutcomes.dfy`: what holds of every execution. `PipelineRuns.dfy`: what holds of interleaved executions, and
  together with the queue and the cluster cache.

**Algorithms**: `Migrations.dfy` with `MigrationRestore.dfy`, `ClusterCache.dfy`, `FilterParser.dfy` with `FilterProperties.dfy`,
`Pagination.dfy`, `RecordSets.dfy`, `NodeJoin.dfy`, `Prune.dfy` with `PruneInPlace.dfy`. `Basics.dfy` has Option,
Result and three set and map facts.

## What the proofs found

- **A failed claim can strand work until the next poll.** When ClaimNextExecution fails while ctx is live, the worker
  logs and goes to the select without trying again, having used up the wakeup (`internal/worker/pool.go:113-122`).
  NoLostWakeup holds outside that window, which MissedMeans defines by events; UnattendedExactly says for every state of
  every run exactly which work is stranded, ClaimErrorExact when one failure does harm, ErrorLosesWakeup shows it from
  every idle state, and TickRepairs shows what ends it.
- **A Postgres claim can overtake a row inserted after its snapshot.** Besides rows locked by other claims, it passes
  over older rows that were inserted while it was under way; InsertIsOvertaken shows it happen, OvertakenInRun says that
  there is no third kind, and ClaimIsOneStep says exactly when such a claim is the one-step claim that SQLite makes.
- **An insert that takes effect but returns an error leaves work that nobody announces**
  (`internal/handlers/api.go:114-117`). It waits for a poll or for the next wakeup; QuiescentIsDrained names these rows.
- **Pagination outside the store's range.** The handlers fix the offset before the store clamps the limit. A limit above
  the maximum leaves rows that no page shows; a limit of 0 with a page above 1 divides by zero
  (`internal/handlers/api.go:275`); a negative limit refuses every page but the first. PagingComplete is the exact
  condition.
- **Migration order.** Scripts run in file-name order but are rolled back in version order. Where the greatest version is
  not the last file, run, rollback and run do not restore the database: RestoreExactly is the exact condition, and
  RestoreByNames puts it in terms of names. It fails when the greatest version extends another with something that sorts
  before the file suffix, such as `-fix`, or `.a`.
- **Migration lock.** ExactlyOnce does not depend on the advisory lock: it holds even if a replica loses the lock's
  connection, because the version's primary key is inserted in the script's transaction. The lock prevents the conflict.
- **Namespace allowlist.** It is judged on the request's target. get-pull-secret-email and describe-nodes have targets of
  their own, so any listed namespace in the params authorizes them and their requests are then outside the list, unless
  the exact conditions of StaysInAllowedNamespaces hold; FixedTargetsReadOutside gives such executions of both.
- **Leases.** describe-nodes requests the leases of all namespaces and lists those of kube-node-lease
  (`internal/actions/describe_nodes.go:44-104`); LeasesGrantedEverywhere says so. The access of get, delete and patch on a
  named object is exactly their one request.
- **Filters.** The comment on parseAWSFilters says that a value cannot contain an equals sign; the code cuts at the
  first one and keeps the rest as value (`internal/actions/aws_get.go:248-273`). The model follows the code.
- **requireClusterInstance.** Its `break` leaves the inner loop only, so the last reservation with a match decides. This
  matters only if one id were answered twice; OwnershipMeans covers both cases.
- **Timestamps.** Text order is time order for years 0 to 9999; TextOrderExact is the exact condition for all years. Through
  its zone offset a `since` parameter can name an instant of year 10000, such as `9999-12-31T23:59:59-01:00`
  (`internal/handlers/api.go:398-401`), and every row after year 1000 then passes a filter that none should pass;
  FilterExact and SinceIsTimeFilter say exactly when the filter is right, for bounds before year 0 as well.

## Model

| member | source | states |
|---|---|---|
| PoolTheorems.NoLostWakeup | internal/worker/pool.go:72-124 | In every reachable state without cancellation, a pending row whose creator has returned from Notify is attended: the channel holds a value, or some worker will look at the table in a way that cannot miss it; so "all parked, channel empty" is unreachable, unless a failed claim has not yet been followed by a worker at the loop top |
| PoolTheorems.MissedMeans | internal/worker/pool.go:109-122 | The exception of NoLostWakeup is exactly this: some claim has failed, and none of the events since then brought a worker to the loop top |
| PoolTheorems.ClaimErrorExact | internal/worker/pool.go:113-122 | When a claim fails in a run, rolled back or committed without acknowledgement, notified work stays attended if and only if the channel holds a value or another worker is going to look at the table |
| PoolTheorems.UnattendedExactly | internal/worker/pool.go:93-124 | In every state of every run before shutdown, notified pending work is unattended if and only if some failed claim stranded it and no event since was a Notify, a return to the loop top, or a claim taking a row |
| PoolSafety.AttendedKept | internal/worker/pool.go:93-124 | Outside failed claims and shutdown, no event leaves attended notified work unattended |
| PoolTheorems.StrandedStays | internal/worker/pool.go:113-122 | Work that is stranded stays pending and unattended through every later state of the run until a Notify, a return of a worker to the loop top, or a claim under way that takes a row |
| PoolTheorems.ErrorLosesWakeup | internal/worker/pool.go:113-122 | The exception is needed: from every idle state, one request whose first claim fails parks all workers on top of notified work with an empty channel |
| PoolTheorems.TickRepairs | internal/worker/pool.go:117-122 | Any return of a worker to the loop top, by the ticker or otherwise, ends the exception and attends to every row |
| PoolTheorems.TokensAreSent | internal/worker/pool.go:72-77 | One send wakes one worker: between two workers that take a value from the channel a creator has put one in |
| PoolSafety.InvAlways | internal/worker/pool.go:93-161 | Over every run of any number of workers, creators, store errors and shutdown: ownership, handover, channel, wakeup and table invariants hold in every state |
| PoolSafety.ScanMissesNothing | internal/store/postgres.go:236-254 | A Postgres claim that finds no row leaves no pending row of its snapshot that is not locked by another open claim |
| PoolSafety.TouchedRow | internal/store/postgres.go:184-229 | Although the UPDATE checks no earlier status, the only rows ever written are a pending row by a claim and a running row by the worker that owns it |
| PoolTheorems.RunAtMostOnce | internal/worker/pool.go:93-161 | Over all workers and the whole run each execution is handed to the runner at most once and owned by at most one worker; what finished was handed over; completed_at is set exactly in terminal states and the output table has exactly one row for a succeeded execution and none for others |
| PoolTheorems.StatusAdvances | internal/store/sqlite.go:178-236 | Between any two moments of a run a row goes pending, running, one terminal status, in that order; a terminal row never changes and created_at never does; which terminal status it is, is PoolResults.ResultsAreStored |
| PoolResults.ResultsAreStored | internal/worker/pool.go:126-161 | In every state of every run, an execution that has ended since the start ended as its own runner said: the runner returned a result at one step, its worker wrote it at a later one, and the row has that result's status and the time of that write, and its output rows are that result's output, or none |
| PoolResults.PersistingIsReturned | internal/worker/pool.go:133-160 | What a worker is about to write is what its runner returned for that execution, and the worker has done nothing since |
| PoolResults.OutputsReplaced | internal/store/sqlite.go:214-233 | After the DELETE and the INSERT the output rows of the execution are exactly the output given, or none, and those of every other execution are what they were, contents and order |
| PoolResults.OutputStays | internal/store/sqlite.go:178-236 | Once an execution has ended its output rows stay as they are to the end of the run |
| PoolResults.CreatedByInsert | internal/store/sqlite.go:75-107 | A row that was not there at the start was inserted in the run, with the creation time it has |
| PoolTheorems.WorkConserved | internal/worker/pool.go:93-161 | Conservation over any stretch of a run: 2 x pending + running, plus claims and final updates made, equals what it was plus two for each creation; so with creation stopped at most that many claims and finishes can follow |
| PoolTheorems.QuiescentIsDrained | internal/worker/pool.go:93-124 | When only the environment can move (requests, timers, failures, shutdown), before shutdown and outside the window of a failed claim: the only pending rows are those whose creator was told that the insert failed, every other creator has notified, and the rows still running are exactly those a store failure left behind |
| PoolTheorems.BusyWorkerCanStep | internal/worker/pool.go:93-161 | A worker that is neither parked nor gone always has a step of its own |
| PoolTheorems.ShutdownTerminates | internal/worker/pool.go:89-124 | After cancel, the workers take at most eight steps each, whatever stores and timers do |
| PoolTheorems.CancelledWorkerCanStep | internal/worker/pool.go:99-120 | After cancel every worker that has not exited has a step to take, so the workers run until they have exited |
| PoolTheorems.WaitLeavesNothingRunning | internal/worker/pool.go:150-160 | When all workers have exited, the running rows are exactly the lost ones: none, if every detached final update and claim acknowledgement succeeded and no earlier process left any |
| PoolTheorems.LostMeans | internal/worker/pool.go:150-160 | A row is lost, that is left running without an owner, if and only if an earlier process left it, the final update of its own worker failed, or its own claim was committed without being acknowledged |
| ClaimRefinement.BoundedOvertaking | internal/store/postgres.go:236-254 | Of the rows in its snapshot, a claim that locks a row overtakes only rows locked by different open claims, at most N - 1 of them |
| ClaimRefinement.SnapshotOfClaim | internal/store/postgres.go:244-249 | In every run the snapshot of a claim under way is the set of pending rows of the state in which that claim began |
| ClaimRefinement.OvertakenInRun | internal/store/postgres.go:236-254 | In every run a claim overtakes only rows locked by different open claims and rows inserted after this claim began |
| ClaimRefinement.InsertIsOvertaken | internal/store/postgres.go:236-254 | From every Postgres state in which a worker at the loop top would be given some row, an older row inserted once its claim has begun is pending and locked by nobody, and is passed over |
| ClaimRefinement.SqliteClaimsInOrder | internal/store/sqlite.go:242-277 | Over SQLite nothing is overtaken: claims of one run take rows strictly in (created_at, id) order |
| ClaimRefinement.SelectIsTake | internal/store/postgres.go:244-254 | Under the abstraction that shows locked rows as running, the row lock takes the oldest still pending row of what the claim saw, and none only if none is left |
| ClaimRefinement.ErrorIsUndo | internal/store/postgres.go:236-274 | A rollback returns the row to pending: in the abstraction it undoes that worker's claim and nothing else |
| ClaimRefinement.PostgresRefinesAtomic | internal/store/postgres.go:236-274 | Every event of the multi-step Postgres machine is one step of a queue whose claim looks at all pending rows and later takes the oldest it saw, or invisible in it |
| ClaimRefinement.PostgresRunRefines | internal/store/postgres.go:236-274 | Every interleaved Postgres run is a run of that queue, undone only by failed claims, and the abstract table is the real one whenever no claim is open |
| ClaimRefinement.ClaimIsOneStep | internal/store/sqlite.go:242-277 | In every run a Postgres claim is, on the abstract queue, the one-step claim of SQLite (the oldest of all pending rows, or none for none) if and only if it took a row older than every pending row inserted since it began |
| Pool.WorkerPool.constructor | internal/worker/pool.go:53-86 | New and Start over any consistent table give an initial state; the worker count is clamped to at least one |
| Pool.WorkerPool.CreateExecution | internal/handlers/api.go:114-119 | The insert is the Insert event: a fresh pending row, not yet signalled |
| Pool.WorkerPool.FailCreate | internal/handlers/api.go:114-117 | An insert that took effect but returned an error leaves a row whose creator will not notify |
| Pool.WorkerPool.Notify | internal/worker/pool.go:72-77 | The non-blocking send: handed to a parked worker, else buffered, else dropped |
| Pool.WorkerPool.LoopTop | internal/worker/pool.go:100-102 | The check of ctx at the loop top |
| Pool.WorkerPool.ClaimNextExecution | internal/store/sqlite.go:242-277 | The SQLite claim takes the oldest pending row by (created_at, id), or none when none is pending |
| Pool.WorkerPool.LockNext | internal/store/postgres.go:244-254 | SELECT ... FOR UPDATE SKIP LOCKED takes the oldest row of the snapshot that is still pending and unlocked |
| Pool.WorkerPool.CommitClaim | internal/store/postgres.go:255-274 | The commit makes the row running and hands it to the worker |
| Pool.WorkerPool.FailClaim | internal/worker/pool.go:111-115 | A failed claim rolls back; the worker leaves when ctx is done and goes to the select otherwise |
| Pool.WorkerPool.LoseClaim | internal/store/postgres.go:269-271 | A commit that took effect but returned an error leaves the row running without an owner |
| Pool.WorkerPool.Exclusive | internal/worker/pool.go:93-161 | After any calls on a pool in any order: executions were handed out once, no two workers own one, and the tables agree |
| Pool.WorkerPool.NothingStranded | internal/worker/pool.go:72-124 | After any calls on a pool in any order: notified pending work is never left with all workers parked and the channel empty, outside the window of a failed claim |
| Pool.WorkerPool.UpdateExecutionWithResult | internal/store/sqlite.go:178-236 | The final update sets status and completed_at, deletes the old output row and inserts the new one, in one step |
| Pool.WorkerPool.Select | internal/worker/pool.go:117-122 | The select statement takes a ready case or blocks, and blocks only when none is ready |
| ExecutionTable.SelectFirst | internal/store/sqlite.go:250-251 | ORDER BY created_at ASC, id ASC LIMIT 1: none exactly for no candidates, else the unique oldest |
| ExecutionTable.CountReplaced | internal/store/sqlite.go:178-236 | DELETE then INSERT leaves one output row for the execution (none without output) and no other execution's rows changed |
| TimeText.TextOrderIsTimeOrder | internal/store/sqlite.go:20-22 | For all nanosecond instants of years 0 to 9999, byte order of the printed timestamps is time order, equal texts mean equal instants, and all have one length (sections 5.1 and 5.6 of RFC 3339) |
| TimeText.ParseOfFormat | internal/store/sqlite.go:370-379 | Parsing a printed timestamp gives back the same nanosecond instant |
| Calendar.DayNumberIsGregorian | internal/store/sqlite.go:22-22 | The years, leap years and month lengths behind the timestamps are the Gregorian ones: every date has the day number of the closed form that starts years in March |
| Calendar.InstantFromEpoch | internal/store/sqlite.go:22-22 | The date and time of day found for an instant are those of its distance from 1970-01-01T00:00:00Z, day 719528, in nanoseconds |
| Calendar.FormatLayout | internal/store/sqlite.go:22-22 | A timestamp of years 0 to 9999 by position: 30 characters, separators at 4, 7, 10, 13, 16, 19 and 29, and between them the decimal digits of year, month, day, hour, minute, second and nanosecond |
| Calendar.ParseExact | internal/store/sqlite.go:370-379 | A text is read as an instant if and only if it is what is printed for that instant, so that impossible dates are refused |
| SqliteOrder.ClaimOrderIsTimeOrder | internal/store/sqlite.go:250-251 | The row that ORDER BY on TEXT puts first is the oldest row in time, and conversely |
| TimeTextRange.CivilOfInstant | internal/store/sqlite.go:22-22 | Every valid date and time is the one found for its instant, so dates and instants correspond one to one; that the dates are the Gregorian ones is Calendar.DayNumberIsGregorian |
| TimeTextRange.TextOrderExact | internal/store/sqlite.go:20-22 | For all instants of year 0 and later, the texts compare as the instants do if and only if the earlier year is no greater than the number made by as many leading digits of the later year |
| TimeTextRange.FilterExact | internal/store/sqlite.go:139-141 | For a row of years 0 to 9999 and any bound, also before year 0 or after 9999, the text comparison is right if and only if the bound is before year 10000 or the row's year is at most the bound's first four digits |
| TimeTextRange.AcceptedSinceMatchesAll | internal/handlers/api.go:398-401 | A bound that the handler accepts and that every row after year 1000 passes, although none is at or after it |
| SqliteOrder.SinceIsTimeFilter | internal/store/sqlite.go:139-141 | created_at >= ? on TEXT is right about all rows of a table if and only if the bound is before year 10000 or no row is of a year above the bound's first four digits |
| Executor.Executor.Execute | internal/executor/executor.go:93-159 | Exactly one record is appended; it carries the request's caller, action and cluster; (decision, outcome) is one of the four legal pairs and matches the result; the verdict is the one of the first supporting scope on the recorded target; Run's calls happen exactly when it allows |
| Executor.Executor.FindScope | internal/executor/executor.go:161-168 | The loop finds the first scope that supports the action |
| Executor.ExecutorRunner.Run | internal/worker/executor_runner.go:48-102 | A row that names no action or has undecodable params fails without record and without calls; any other gets exactly one record, for the row's own cluster, user and action; the status is succeeded if and only if that record's outcome is success; the result always is one the pool may persist |
| Executor.RegistryRoundTrip | internal/actions/actions.go:129-145 | A name resolves to an action if and only if it is that action's name |
| Executor.RegisteredNames | internal/actions/actions.go:129-145 | Which action each of the nine literal names runs |
| PipelineTheorems.AllowedIff | internal/executor/executor.go:128-145 | For a derived target the record says allowed if and only if: for AWS, resource and region are set, the region is listed and so is "reboot" or "terminate" for the action that is one; for Kubernetes, no namespace is listed at all, or the namespace is and, for a secret, "namespace/name" is; otherwise it says denied and skipped |
| PipelineTheorems.AwsCallsInListedRegion | internal/executor/aws.go:33-143 | Every call of an AWS action's run goes to the one region that was looked up for the cluster and that a policy lists; reads go to the service of the named resource only |
| PipelineTheorems.MismatchRefused | internal/executor/aws.go:33-89 | A reboot or terminate whose params name any resource but ec2-instances ends after the region lookup |
| PipelineTheorems.WriteMadeIff | internal/actions/aws_write.go:50-126 | An allowed reboot or terminate asks EC2 about the instance exactly when it has clients, an id and an infrastructure ID, and then, where ids are unique, makes its call if and only if the answer shows the instance with the tag kubernetes.io/cluster/<infrastructure ID> = owned |
| PipelineTheorems.TouchedIffAllowed | internal/executor/executor.go:111-158 | Apart from the lookups that find the target, nothing outside is called unless the record says allowed, and then something is; allowed means a supporting scope authorized the recorded target |
| PipelineTheorems.WriteTraceSafety | internal/executor/aws.go:33-143 | For a derived target, RebootInstances is called by aws-reboot with "reboot" permitted and TerminateInstances by aws-terminate with "terminate" permitted, and by no other action; in the permitted region looked up for the cluster, on the id of the params, after a Describe in the same execution that returned this instance tagged as owned by the infrastructure ID looked up for the cluster; there is at most one; success means it was accepted, and if it was accepted the outcome is success or a result that cannot be serialized |
| PipelineTheorems.KubeCallsGranted | internal/executor/kube.go:73-113 | Every Kubernetes call of any execution goes to the requested cluster and is granted by the access request made first in that execution |
| PipelineRuns.RunnerExplains | internal/worker/executor_runner.go:48-102 | In the calls of one run of the runner, every write is the permitted operation on the id of the params, in the region and for the infrastructure ID looked up for the cluster, after the Describe that shows it owned, and the first write |
| PipelineRuns.RowDecidesCalls | internal/worker/executor_runner.go:48-102 | In the fields of the claimed row: every call is for its cluster, RebootInstances only for "aws-reboot" and TerminateInstances only for "aws-terminate", on the id its params give, and an object is deleted or patched only for "delete" or "patch" |
| PipelineRuns.RowDecidesRecord | internal/worker/executor_runner.go:63-82 | The audit record has the row's cluster, user and action, and the target that was judged is the one the row's params name |
| PipelineRuns.InterleavedWritesJustified | internal/actions/aws_write.go:50-179 | However any number of executions interleave, every write of the whole trace is explained in this way by what its own execution did at earlier steps, and that execution has not written before |
| PipelineRuns.RunnerWritesOnce | internal/worker/executor_runner.go:48-102 | The runner makes at most one mutating call for a claimed row |
| PipelineRuns.AtMostOneWritePerRow | internal/worker/pool.go:126-161 | Queue and pipeline together: over any run of the pool, each execution row leads to at most one mutating cloud call |
| PipelineRuns.WriteUsesOcmAnswers | internal/awsapi/credentials.go:129-159 | Cache and pipeline together: the region a write goes to and the infrastructure ID its instance was checked against are what OCM said of that very cluster, to this lookup or less than the cache's lifetime before it |
| PipelineRuns.LookupAsUncached | internal/awsapi/credentials.go:129-159 | If OCM's record of a cluster never changes, a region or infrastructure ID lookup that succeeds answers what asking OCM would |
| Pipeline.DeriveAwsTarget | internal/executor/aws.go:33-89 | The region is the cluster's own, never a param; a write gets the action's resource and the cluster's infrastructure ID; each way to fail has its calls and its error, and a resource of another kind is a plain refusal |
| Pipeline.RunAws | internal/executor/aws.go:116-143 | All calls are for the cluster, in the target's region, on declared services only; writes are justified and at most one; failures are framed with a cause; no client, no call |
| Pipeline.RunKube | internal/executor/kube.go:73-113 | Sessions are requested with the action's declared rules; without them nothing is sent, with them exactly what the action sends, which decides the result |
| Pipeline.RequireClusterInstance | internal/actions/aws_write.go:50-94 | Without id or infrastructure ID no call is made and the answer is a refusal; otherwise one Describe, judged by the instance its nested loops select |
| Pipeline.Find | internal/actions/aws_write.go:70-81 | The nested loops with the inner break select the first match of the last reservation that has one |
| Pipeline.OwnershipMeans | internal/actions/aws_write.go:67-93 | Acceptance means an answered instance with the id and the ownership tag; "not found" means no answered instance has the id; where ids are unique the check passes if and only if the tagged instance was answered |
| Pipeline.WriteExecute | internal/actions/aws_write.go:113-179 | aws-reboot calls RebootInstances and aws-terminate TerminateInstances, at most once, and exactly after the check accepted; success implies the call was accepted; an accepted call fails only if the result cannot be serialized |
| Pipeline.ReadExecute | internal/actions/aws_get.go:143-173 | aws-get only reads, on the one service of its resource; it refuses exactly the requests that validate or the resource table does not accept, and those make no call |
| PipelineTheorems.RefusedReadsNothing | internal/actions/aws_get.go:153-161 | End to end: a read whose resource, id or params are not accepted never sends a read and never succeeds |
| Authorization.KubeMonotone | internal/authorization/authorization.go:45-72 | The Kubernetes policy is monotone between two policies if and only if the change does not leave permissive mode |
| Authorization.StringSet | internal/authorization/aws.go:71-77 | The loop's map holds exactly the listed strings |
| KubeActions.RbacIsSufficient | internal/actions/list_alerts.go:37-141 | For every Kubernetes action, target, params and cluster behaviour, each request Execute sends is granted by the access request built from RequiredRBAC |
| KubeActions.NodesGranted | internal/actions/describe_nodes.go:44-104 | The same for the four listings of describe-nodes |
| KubeActions.OnTargetGranted | internal/actions/get.go:23-69 | The same for get, delete and patch on the target |
| KubeActions.SecretGranted | internal/actions/get_pull_secret_email.go:39-55 | The same for the one secret of get-pull-secret-email |
| KubeActions.ActsOnTarget | internal/actions/delete.go:37-61 | get, delete and patch send at most one request, with their own verb, for the target itself in the target's namespace, and succeed if and only if it was sent and answered; delete and patch never send without a name; no other action changes an object |
| KubeActions.StaysInAllowedNamespaces | internal/authorization/authorization.go:45-72 | With namespaces listed and the target authorized, the requests of an action stay inside the lists whatever the cluster answers if and only if: always for get, delete, patch and list-alerts; openshift-config and its pull-secret are listed, for get-pull-secret-email; the empty namespace and kube-node-lease are listed, for describe-nodes |
| KubeActions.NodesOutside | internal/actions/describe_nodes.go:64-104 | Unless the empty namespace is listed, describe-nodes leaves the list whatever the cluster answers |
| KubeActions.AlertsSucceed | internal/actions/list_alerts.go:48-123 | list-alerts succeeds only after querying the Prometheus pod it discovered and, exactly when silences are asked for, the Alertmanager pod; bad params are refused before any request |
| KubeActions.FixedPlans | internal/actions/describe_nodes.go:64-104 | describe-nodes reads nodes, pods, events and leases in this order and succeeds if and only if each read does; get-pull-secret-email makes its one request whatever the target |
| KubeOutcomes.SucceedsIff | internal/actions/delete.go:37-61 | For every cluster behaviour each Kubernetes action succeeds if and only if what it sent is complete and was answered: for get, delete and patch the one request on the target; for get-pull-secret-email the secret, readable; for describe-nodes its four requests; for list-alerts the queries of the discovered pods |
| KubeOutcomes.SendsIff | internal/actions/actions.go:227-238 | get, delete and patch send their request if and only if the namespace fits the scope, delete and patch name their object, and patch comes with a patch |
| KubeOutcomes.KubeExecutions | internal/executor/kube.go:35-113 | End to end: the record names the object of the params; it says success if and only if the action was allowed and its requests are complete and answered; get, delete and patch send exactly when a session was opened and the params suffice |
| KubeOutcomes.ObjectAccessIsTight | internal/actions/delete.go:22-35 | The access that get, delete and patch ask for on a named object grants their one request and nothing else, short of a star given by the caller |
| KubeOutcomes.FixedAccess | internal/actions/describe_nodes.go:44-62 | Exactly what the other three actions ask for: the one secret; pods and pods/exec of the monitoring namespace; nodes or the one named, pods, events and leases of the cluster |
| KubeOutcomes.LeasesGrantedEverywhere | internal/actions/describe_nodes.go:44-104 | describe-nodes asks for the leases of every namespace, and lists those of one |
| PipelineTheorems.NamespaceAllowlistHolds | internal/executor/kube.go:35-71 | End to end, for every Kubernetes action and whatever params a caller sends to a server that lists namespaces: it runs only with a listed namespace; under the condition of StaysInAllowedNamespaces its requests stay inside the lists, and where that fails a requesting get-pull-secret-email, and a requesting describe-nodes without the empty namespace listed, are outside |
| PipelineTheorems.NamespaceAllowlistExact | internal/executor/kube.go:35-113 | For an authorized request, all its possible executions stay inside the lists if and only if that condition holds |
| PipelineTheorems.FixedTargetsReadOutside | internal/actions/describe_nodes.go:64-104 | For both actions with targets of their own, wherever the condition fails and for every listed namespace in the params, there is an authorized, audited and successful execution that leaves the lists |
| KubeActions.AskAllFollowsPlan | internal/actions/describe_nodes.go:64-104 | Whatever is answered, the requests made are a prefix of the plan, ending at the first failure, and the whole plan on success |
| Rbac.BuildCreateRequest | internal/backplane/client.go:146-180 | Cluster rules in order; one role for each other declared namespace, strictly sorted, each with exactly its rules in input order |
| Rbac.SameGrants | internal/backplane/client.go:146-192 | The regrouped request grants an access if and only if the declared rules do |
| Rbac.MultiplicityKept | internal/backplane/client.go:146-180 | Every rule arrives as often as declared, in its own namespace |
| Rbac.RequestDetermined | internal/backplane/client.go:159-171 | The iteration order of the map does not show: the rules determine the request |
| Rbac.GroupRules | internal/backplane/client.go:147-157 | One pass splits the rules into cluster rules and a map by namespace |
| Migrations.ExactlyOnce | internal/store/migrations.go:31-103 | For any interleaving of replicas, lost locks, errors and crashes at any point: each script is applied at most once, the recorded set is what was recorded before plus what was applied, the applied scripts are a prefix of those to do, and a replica that finished leaves none to do |
| Migrations.InvAlways | internal/store/migrations.go:31-103 | The invariant behind it holds over every run |
| Migrations.LockPreventsConflicts | internal/store/migrations.go:32-50 | While no replica loses its lock's connection, at most one is inside the loop and the primary key is never hit |
| Migrations.LockIsReturned | internal/store/migrations.go:32-50 | In every state of every run the lock is held only by a replica that is past it and not yet back |
| Migrations.ReplicasProceed | internal/store/migrations.go:31-103 | While no lock is lost, a replica that has not come to its end has a step to take that is no failure, or the replica that holds the lock has |
| Migrations.CommitExtends | internal/store/migrations.go:84-99 | A commit extends the applied prefix by exactly the next script |
| Migrations.Database.RunMigrations | internal/store/migrations.go:60-102 | A run applies exactly the unrecorded scripts of the part it reached, in order, and records that part; it stops early only at a failure |
| Migrations.Database.RollbackLast | internal/store/migrations.go:105-150 | The greatest recorded version is undone and unrecorded together, or nothing changes |
| Migrations.Last | internal/store/migrations.go:143-149 | ORDER BY version DESC LIMIT 1 |
| Migrations.SecondRunChangesNothing | internal/store/migrations.go:68-77 | A second run over a fully recorded list changes neither schema nor record |
| Migrations.VersionsDistinct | internal/store/migrations.go:152-166 | The versions walked are the directory's scripts, each once, in file-name order |
| Migrations.FileOrderIsVersionOrder | internal/store/migrations.go:143-166 | File-name order and version order agree for versions of which neither is a prefix of the other |
| Migrations.ExtendedVersionOrder | internal/store/migrations.go:143-166 | For a version extending another they agree if and only if what it adds sorts after the file suffix |
| MigrationRestore.RestoreExactly | internal/store/migrations.go:31-150 | For any scripts and earlier record: run, rollback of the version that is greatest, and run again restore schema and record for all inverse up and down scripts if and only if that version is the script the first run applied last |
| MigrationRestore.RestoresIfLastApplied | internal/store/migrations.go:105-150 | The half of it that holds for every kind of schema: if the version rolled back was applied last, every pair of inverse scripts restores |
| MigrationRestore.RunRollbackRun | internal/store/migrations.go:31-150 | The three calls on one database restore it exactly when the predicate of RestoreExactly holds of the version rolled back |
| MigrationRestore.GreatestIsLastFile | internal/store/migrations.go:143-166 | In a directory of scripts the greatest version is the last file if and only if each version it extends is extended by something that sorts after the file suffix |
| MigrationRestore.RestoreByNames | internal/store/migrations.go:31-166 | The condition of RestoreExactly for a directory and a fresh database, in terms of the scripts' names |
| MigrationRestore.HyphenatedVersionNotRestored | internal/store/migrations.go:143-166 | For every version and every extension of it that starts below the full stop: after run, rollback and run the database is not restored |
| ClusterCache.ReturnsAreGenuine | internal/awsapi/credentials.go:312-334 | With the lock dropped during the lookup and stores in any order, a returned record for a key was answered for that key, to this call or to one that stored it less than the lifetime before the clock reading that served it |
| ClusterCache.ServedUntilExpiry | internal/awsapi/credentials.go:312-334 | In every run a call that found an entry is served from it if and only if the clock is before its expiry; otherwise OCM is asked |
| ClusterCache.CacheHoldsOnlyAnswers | internal/awsapi/credentials.go:324-331 | The cache holds answers only, for their own key; failures are never stored; no entry outlives its lifetime |
| ClusterCache.CacheIsTransparent | internal/awsapi/credentials.go:312-334 | If OCM's record of a key never changes, every call returns that record, whatever it was served from |
| ClusterCache.CloudCredentialsProvider.Cluster | internal/awsapi/credentials.go:312-334 | One call alone: served when fresh, otherwise the answer, stored with a new expiry unless it failed |
| FilterParser.ParseAWSFilters | internal/actions/aws_get.go:253-292 | The loops over entries, map and sorted names compute the specification Parse |
| FilterProperties.ParseResult | internal/actions/aws_get.go:253-292 | The result has distinct, sorted, non-empty, trimmed names; a name's values are exactly the trimmed values of its pairs in input order; a non-blank input never parses to no filters |
| FilterProperties.ParseFails | internal/actions/aws_get.go:266-284 | A parse fails if and only if the input is not blank and some entry is not a pair or every entry is blank |
| FilterProperties.PrintThenParse | internal/actions/aws_get.go:248-292 | Printing a result as Name=Value pairs joined by commas and parsing again gives the same result, for every input that parses |
| FilterProperties.SplitOfJoin | internal/actions/aws_get.go:260-260 | Splitting at commas undoes joining parts that hold none |
| FilterProperties.TrimSpec | internal/actions/aws_get.go:261-271 | Trimming removes white space at the ends only |
| FilterProperties.TrimIsSlice | internal/actions/aws_get.go:261-271 | Trimming leaves one contiguous piece of the input, with nothing but white space on either side |
| AwsGet.ResourcesByName | internal/actions/aws_get.go:66-135 | The resource table: a resource's service, params and use of the id follow from its name |
| AwsGet.AcceptsByName | internal/actions/aws_get.go:66-213 | aws-get accepts a request if and only if the resource is listed, the id is present or absent as target-health, record sets, events and hosted zones need it, and every param is blank, resource, id, filters for an ec2 or event listing, or since for events |
| AwsGet.Validate | internal/actions/aws_get.go:179-213 | A request is accepted if and only if the id suits the resource and every non-blank param is known; among several refused params the error names the least |
| Pagination.Query | internal/store/sqlite.go:137-176 | The filtered rows in (time desc, id asc) order, each once |
| Pagination.ListingDetermined | internal/store/sqlite.go:157-157 | Table and filter determine the listing |
| Pagination.List | internal/handlers/api.go:259-310 | The handler's answer for every page and limit, absent, out of range or too large: refusal, panic or page |
| Pagination.StoreList | internal/store/sqlite.go:137-176 | The store clamps limit and offset after the handler fixed the offset, and returns that part of the listing |
| Pagination.PageServed | internal/handlers/api.go:259-310 | Within the store's range a page is served if and only if its offset fits 31 bits; it is the page asked for, reported as such, and has_more holds if and only if the next page is non-empty |
| Pagination.FirstPage | internal/store/sqlite.go:498-513 | The first page for any limit: the default number of rows for zero or less, the maximum above it |
| Pagination.AcceptedOffsetFits | internal/handlers/api.go:273-279 | Whatever the limit, an accepted offset is at most 2^31-1 |
| Pagination.PagesPartition | internal/handlers/api.go:259-310 | Pages 1 to n one after another are the beginning of the listing without gap or duplicate, and all of it once n pages suffice |
| Pagination.PagingComplete | internal/store/sqlite.go:498-513 | Every row of a listing can be paged to if and only if the limit is in the store's range or the first page already holds everything |
| RecordSets.DescribeRecordSets | internal/actions/aws_route53.go:38-60 | Against a server that truncates anywhere and resumes at (name, type, identifier), the loop returns every record once and in order, fails if and only if one of its calls fails, and ends |
| RecordSets.StuckServer | internal/actions/aws_route53.go:46-57 | The assumption that truncated pages advance is needed: without it the calls never end |
| NodeJoin.GroupPodsByNode | internal/actions/describe_nodes.go:127-141 | The index equals, for every name, the order-preserving filter of the pods on that name |
| NodeJoin.GroupEventsByNode | internal/actions/describe_nodes.go:143-161 | The same for events about nodes |
| NodeJoin.IndexLeasesByNode | internal/actions/describe_nodes.go:163-173 | The index holds the last lease of each name, even when its spec is missing |
| NodeJoin.DescribeNodes | internal/actions/describe_nodes.go:101-111 | Each node, in order, gets exactly its pods, its events and its last lease |
| NodeJoin.EachPodOnce | internal/actions/describe_nodes.go:127-141 | Each pod contributes its entry once to the list of its own node, between those of the pods before and after it, and nothing under any other name |
| NodeJoin.EachEventOnce | internal/actions/describe_nodes.go:143-161 | Each event whose object is of kind Node and has a name contributes once to that node's list, in place, and any other event to none |
| NodeJoin.AllPodsReceived | internal/actions/describe_nodes.go:101-111 | Over distinct nodes that cover the placed pods, as many entries arrive as pods are placed |
| PruneInPlace.PruneUnset | internal/actions/actions.go:199-210 | In place, over objects held by reference and possibly shared: the tree under the object becomes the pruned tree, only nil fields are deleted, objects not below it are left alone, and it ends |
| PruneInPlace.PruneUnsetList | internal/actions/actions.go:216-225 | A list's objects are pruned, the list itself keeps every element |
| PruneInPlace.DoneIsPruned | internal/actions/actions.go:199-225 | Deleting nil fields until none is reached amounts to pruning the tree |
| Prune.PruneAt | internal/actions/actions.go:189-225 | After pruning there is a value at a path if and only if there was one and it was not a null field, and it is that value pruned; so list positions, nulls in lists and leaves stay |
| Prune.PruneIsClean | internal/actions/actions.go:199-225 | No null field is left at any depth |
| Prune.PruneFixesClean | internal/actions/actions.go:199-225 | Pruning changes a tree if and only if it has a null field |
| Prune.PruneIdempotent | internal/actions/actions.go:199-225 | Pruning twice is pruning once |

## Left out

- Pipeline.ReadExecute: what the individual AWS reads send and return is abstracted to any number of reads of the resource's service, because the paging is done by the SDK; the one hand-written loop is RecordSets.
- Pipeline.WriteExecute: the stored output of a write (instance fields, message, state change) is an arbitrary value.
- SqliteOrder.SinceIsTimeFilter: stored rows are of years 0 to 9999, as the clock that stamps them is; bounds reach back to 400 years before year 0, more than any zone offset.
- Pool.WorkerPool.LoseClaim: of Postgres only; PoolModel has the same event for SQLite.
- TimeText.ParseOfFormat: parses the layout's `Z` form only, the one that the store writes; numeric offsets and other spellings are not modelled.
- Executor.ExecutorRunner.Run: JSON decoding is one of three given outcomes (absent, malformed, decoded), and the execution timeout shows only as failing calls.
- Rbac.SameGrants: aggregated roles, subresource wildcards and non-resource URLs of Kubernetes RBAC have no place in the rules that the actions declare.
- ClusterCache.ReturnsAreGenuine: the credential chain, the OCM connection and the proxy settings are not modelled, only the cluster cache.
- Pagination.List: one method for both handlers (`internal/handlers/api.go:166-218` has the same code with limits 50 and 200); the filters other than time are an arbitrary predicate, and a row that cannot be decoded is not modelled.
- Pagination.PagesPartition: count and page are read from one fixed table; concurrent inserts between two page requests are not modelled.
- MigrationRestore.RestoreExactly: schema changes are functions of the schema; SQL text, drivers and timestamps of the migration table are not modelled, and it speaks of scripts of which down inverts up.
- Several server processes sharing one Postgres queue: the model has one pool. Rows an earlier process left running are part of the initial state.
- Real time, fairness and liveness: replaced by measures, by statements about which steps remain possible, and by a clock that only moves forward.
- Panics inside an action: the deferred audit record of a panicking run is not modelled.
- OutputFromActionResult's error branch and the failure reason of a run: the first is never taken by the results the pipeline produces, the second is only logged.
- SQL text, transaction isolation beyond snapshot, row lock and commit, and collation: ids are compared by a total order, instants are exact.
- HTTP routing, middleware, authentication and roles, OpenAPI types, JSON, configuration, logging and error wording.
- The command-line tools, the AWS, Kubernetes, OCM and backplane client libraries, and the SPDY transport.
- Reshaping of pods, events, nodes, alerts and silences for output, and the extraction of the e-mail address: field copying; NodeJoin treats the reshaped entry as one value.
- JSON objects that contain themselves: pruneUnset is only given the output of a decoder; PruneInPlace covers shared objects but assumes there is no cycle.
