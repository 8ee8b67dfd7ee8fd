# ALR job handler and job store

This project models the Assignment List Report (ALR) job handler of the BCDA worker
and the Postgres job store it relies on.

A big ALR job is split into many que-go work units. Each delivery of a unit runs
`startAlrJob`, which goes through these steps:

- It validates the unit against the `jobs` and `job_keys` tables.
- It moves the job from Pending to InProgress with a compare-and-set update.
- It runs the ALR worker, which records its output files as job keys.
- It asks `isJobComplete` whether the job now has all its units. If so, it moves the
  job's output from the staging directory to the payload directory and marks the job
  Completed.

A nil result removes the unit from the queue (`Drop`). An error has the unit delivered
again (`Retry(reason)`).

The project has four modules:

- `Models` (`models.dfy`): the value types. This covers the fixed-width integers of the
  Go code, the job statuses, the rows of both tables, the que-go job envelope, and the
  checked conversion to `int64`.
- `Postgres` (`repository.dfy`): the job store.
  - The read queries are functions over the tables as values: `GetJobByID`, `GetJobKey`,
    `GetJobKeyCount` and `GetUniqueJobKeyCount`.
  - The class `Repository` holds the `jobs` map, the `job_keys` sequence and the
    `job_keys.id` serial counter.
  - The class's methods are the writing statements: `updateJob`, which the two status
    updates are built on, `CreateJobKey` and `CreateJobKeys`.
  - `ExecUpdate` is the database's side of an `UPDATE`. It is a loop that visits every
    row, assigns the rows the WHERE clause selects, and counts them.
- `Queueing` (`alr.dfy`): `IsJobComplete` as a function. The class `MasterQueue` holds
  the store, the retry limit, and the jobs whose output sits in the staging or payload
  directory. `StartAlrJob` is a method on it, split into `ValidateAlrJob`, the middle
  steps, and `FinishAlrJob`.
- `Scenarios` (`scenarios.dfy`): concrete deliveries against a small store, and the
  redelivery property, which relates two deliveries of the same unit.

Three things the handler cannot see are parameters of each call:

- **Transient database errors.** Each statement takes a `DbFault`, which is `NoFault` or
  `Fault(detail)`.
- **The ALR worker's run.** This is the files it writes under the job's staging
  directory and records as job keys, and its error.
- **Whether `os.Rename` fails for a reason of the file system.** This is
  `Collaborators.renameFails`. Apart from this, the rename also fails when the job has no
  staged directory, or when a published directory for the job is already in the way.

The `NOW()` of a statement is a clock reading passed in as `now`.

Two intended behaviours of the system are not what the code does, and the model follows
the code in both.

**A Completed job can become Failed.** Completed is meant to be a terminal status that
never changes, but the code does not enforce this.

- The handler's status guard (`bcdaworker/queueing/alr.go:81-92`) skips only Cancelled
  and Failed jobs. So a unit delivered after its job is Completed still runs the worker.
- If that worker writes output, it writes it under the staging directory again and
  records a job key. The unit finds the job complete, but its rename fails, because the
  published directory is already in the way, so the unit is retried. The retry finds
  the job key and is dropped at lines 93-99, and the job stays Completed. The scenarios
  are `LateUnitOfCompletedJobRetried` and `LateUnitRedeliveryDropped`.
- A late unit that never records a job key is different. An example is a unit whose
  worker fails each time before writing anything. It is retried until it exceeds its
  retry budget, and then line 118 marks the Completed job Failed. The scenarios are
  `LateUnitWithoutOutputRetried` and `LateUnitFailsCompletedJob`.

**A failed rename is not retried.** A failed move of the output is meant to be retried
whole. In the code, the unit whose rename failed has already recorded its job
key, so its redelivery is dropped at the key check (lines 93-99) before the rename is
reached again. The job then stays InProgress with its output staged. The scenarios are
`LastUnitRenameFails` and `RetriedRenameDropped`. `RedeliveryIsDropped` states the
general fact: whatever the first delivery's outcome and the error count of the second,
a redelivery of a unit that recorded output is dropped and changes nothing: the jobs
table, the job keys and their serial counter, and the staged and published directories
all stay as the first delivery left them.

## Model

| member | source | states |
|---|---|---|
| Models.DecodedArgs | bcdaworker/queueing/alr.go:50-59 | the handler works with whatever arguments decoding left, even when it reported an error; a payload rejected outright leaves job id 0 and an empty CMS id |
| Models.ToInt64 | bcdaworker/queueing/alr.go:105-109 | the conversion succeeds exactly when the id is at most 2^63-1, and then keeps its value |
| Postgres.GetJobByID | bcdaworker/repository/postgres/repository.go:86-110 | the stored row for the id is returned; no row gives `ErrJobNotFound`; a driver error is passed through |
| Postgres.AssignOnlyStatus | bcdaworker/repository/postgres/repository.go:191-199 | `updated_at = NOW()` followed by the SET list changes only `status` (to the last status assigned) and `updated_at` of a row |
| Postgres.UpdatedKeepsKeys | bcdaworker/repository/postgres/repository.go:191-199 | after an update, every row is still stored under its own id |
| Postgres.UpdateById | bcdaworker/repository/postgres/repository.go:112-116 | `WHERE id = jobId` selects exactly the row with that id, if there is one, and the update sets its status and `updated_at` and leaves every other row alone |
| Postgres.UpdateByIdAndStatus | bcdaworker/repository/postgres/repository.go:118-122 | `WHERE id = jobId AND status = current` selects that row exactly when it holds `current`; otherwise the table is unchanged |
| Postgres.ExecUpdate | bcdaworker/repository/postgres/repository.go:201-207 | visiting every row once gives the table where exactly the selected rows are assigned, and the affected count is the number of selected rows |
| Postgres.Repository.UpdateJob | bcdaworker/repository/postgres/repository.go:191-217 | a failing statement returns its error and changes nothing; otherwise the table becomes the updated table, and `ErrJobNotUpdated` is returned exactly when no row was selected; job keys are untouched |
| Postgres.Repository.UpdateJobStatus | bcdaworker/repository/postgres/repository.go:112-116 | sets the job's status whatever it was; `ErrJobNotUpdated` exactly when no job has the id; every other row is unchanged |
| Postgres.Repository.UpdateJobStatusCheckStatus | bcdaworker/repository/postgres/repository.go:118-122 | sets the status to `new` only when the job holds `current`; `ErrJobNotUpdated` exactly when it does not (or the job is missing), and then nothing changes |
| Postgres.Repository.CreateJobKey | bcdaworker/repository/postgres/repository.go:124-132 | appends exactly one row, which takes the next serial id; existing rows and the jobs table are untouched |
| Postgres.Repository.CreateJobKeys | bcdaworker/repository/postgres/repository.go:134-145 | appends one row per key, in slice order, with consecutive serial ids; an empty slice or a failing statement appends nothing and returns an error; the jobs table is untouched |
| Postgres.FirstKeyRow | bcdaworker/repository/postgres/repository.go:172-177 | finds the first row with that `job_id` and `que_job_id`, and nothing exactly when no row matches |
| Postgres.GetJobKey | bcdaworker/repository/postgres/repository.go:172-189 | `ErrJobKeyNotFound` exactly when no row matches; a found key carries the queried job id and que job id and the id of a matching row |
| Postgres.DistinctQueJobs | bcdaworker/repository/postgres/repository.go:160-163 | the scan counts the distinct non-NULL que job ids among the job's rows |
| Postgres.GetUniqueJobKeyCount | bcdaworker/repository/postgres/repository.go:160-170 | a successful count is the number of distinct non-NULL que job ids among the job's rows |
| Postgres.UniqueCountIgnoresReplay | bcdaworker/repository/postgres/repository.go:160-170 | adding a row whose que job id the job already has leaves the distinct count unchanged |
| Postgres.UniqueCountCountsNewUnit | bcdaworker/repository/postgres/repository.go:160-170 | adding a row with a new que job id of the job raises the distinct count by one |
| Postgres.QueJobIdsGrow | bcdaworker/repository/postgres/repository.go:160-170 | appended rows never remove a que job id from a job's set, so the distinct count never decreases |
| Postgres.ContainsIffOccurs | bcdaworker/repository/postgres/repository.go:150 | the `LIKE '%-error.ndjson%'` test holds exactly when the marker occurs at some position of the file name |
| Postgres.CountedRows | bcdaworker/repository/postgres/repository.go:147-150 | the count never exceeds the number of rows |
| Postgres.CountedRowsArePositions | bcdaworker/repository/postgres/repository.go:147-158 | the count equals the number of row positions that belong to the job and are not error files, so duplicates count |
| Postgres.GetJobKeyCount | bcdaworker/repository/postgres/repository.go:147-158 | a successful count is the number of the job's rows, duplicates included, whose file name does not contain `-error.ndjson` |
| Postgres.CountedRowsSnoc | bcdaworker/repository/postgres/repository.go:147-158 | appending a row of the job raises the count by one, even when it repeats an earlier row, unless the row is an error file |
| Queueing.IsJobComplete | bcdaworker/queueing/alr.go:177-206 | fetch and count errors are errors; Completed means complete; Cancelled or Failed means not complete, whatever the count; otherwise the job is complete exactly when its distinct que job count is at least `JobCount` |
| Queueing.CompletionIsMonotone | bcdaworker/queueing/alr.go:192-203 | once a job is complete, more key rows never make it incomplete |
| Queueing.KeysFor | bcdaworker/queueing/alr.go:142-143 | the worker records one key per output file, carrying the job id and the que job id |
| Queueing.RecordedOutputIsFound | bcdaworker/queueing/alr.go:93-99 | once the worker has recorded output for a que job, the job key lookup for that job and que job succeeds |
| Queueing.MasterQueue.Rename | bcdaworker/queueing/alr.go:157-163 | the move succeeds exactly when no file-system fault occurs, the job has a staged directory and no published directory is in the way; it then moves the directory to the payload directory; otherwise nothing changes |
| Queueing.MasterQueue.ProcessAlrJob | bcdaworker/queueing/alr.go:142-149 | the worker stages the job's directory when it writes output, appends the keys of its outputs, and changes nothing else in the store; its error is returned unchanged |
| Queueing.MasterQueue.ValidateAlrJob | bcdaworker/queueing/alr.go:61-102 | lookup error gives retry; missing job gives drop once `ErrorCount >= MaxRetry` and retry before that; Cancelled or Failed gives drop; a key lookup error gives retry; an existing key gives drop; the handler goes on exactly when none of these applies |
| Queueing.MasterQueue.FinishAlrJob | bcdaworker/queueing/alr.go:151-174 | a completion-check error gives retry; an incomplete job gives drop; a complete job is renamed, and only a successful rename is followed by the Completed update, whose error gives retry |
| Queueing.MasterQueue.StartAlrJob | bcdaworker/queueing/alr.go:43-175 | each early exit of the handler with its result and the store it leaves; a failed id conversion gives retry; `ErrorCount > MaxRetry` marks the job Failed (when that update works) and drops; `ErrorCount == MaxRetry` still proceeds; `ErrJobNotUpdated` from the compare-and-set is ignored; other update errors retry before the worker runs; the worker runs, so keys are added and the key counter advances by one per output, exactly when every earlier check passed; a worker error is returned with nothing after it; Completed is written only after a complete check and a successful rename; no other job's row changes |
| Scenarios.CompareAndSetOnce | bcdaworker/repository/postgres/repository.go:118-122 | a second Pending-to-InProgress update of the same job reports `ErrJobNotUpdated` |
| Scenarios.FirstUnitStartsJob | bcdaworker/queueing/alr.go:129-174 | the first unit of a two-unit job leaves it InProgress with one key row and drops the unit |
| Scenarios.LastUnitCompletesJob | bcdaworker/queueing/alr.go:151-172 | the second unit of the job publishes its output and marks it Completed |
| Scenarios.MissingJobDropped | bcdaworker/queueing/alr.go:63-77 | a unit of a missing job is retried below the retry limit and dropped at it, with the store unchanged |
| Scenarios.CancelledJobIgnored | bcdaworker/queueing/alr.go:81-86 | a unit of a Cancelled job is dropped and records nothing |
| Scenarios.AtRetryLimitProceeds | bcdaworker/queueing/alr.go:114-131 | a unit whose error count equals the retry limit is still processed |
| Scenarios.BeyondRetryLimitFailsJob | bcdaworker/queueing/alr.go:116-127 | a unit beyond the retry limit marks the job Failed and records nothing |
| Scenarios.LastUnitRenameFails | bcdaworker/queueing/alr.go:157-163 | when the last unit's rename fails, the unit is retried and the job stays InProgress with its key recorded and its output staged |
| Scenarios.RetriedRenameDropped | bcdaworker/queueing/alr.go:93-99 | the retry of that unit is dropped at the key check, so the job stays InProgress, staged and unpublished |
| Scenarios.LateUnitOfCompletedJobRetried | bcdaworker/queueing/alr.go:151-163 | a new unit of a Completed job runs the worker, which stages output again; the job is complete, but the rename is blocked by the published directory, so the unit is retried |
| Scenarios.LateUnitRedeliveryDropped | bcdaworker/queueing/alr.go:93-99 | that unit recorded a job key, so its retry beyond the budget is dropped and the job stays Completed |
| Scenarios.LateUnitWithoutOutputRetried | bcdaworker/queueing/alr.go:142-149 | a late unit of a Completed job whose worker fails before writing records no key and is retried |
| Scenarios.LateUnitFailsCompletedJob | bcdaworker/queueing/alr.go:116-127 | a late unit without a recorded key, once beyond its retry budget, changes the Completed job to Failed |
| Scenarios.RedeliveryIsDropped | bcdaworker/queueing/alr.go:93-99 | a unit whose worker run recorded output is dropped when delivered again, whatever the first outcome and with any error count; the second delivery leaves the jobs table, the job keys, the key counter (advanced once per output by the first) and the staging and payload directories as the first left them |

## Left out

- The cancellation watcher started at `bcdaworker/queueing/alr.go:112` and the cancellable context are left out. The watcher is a concurrent task, and its code is not part of this model.
- Concurrent deliveries are left out. Each delivery is one sequential call, and deliveries are only composed in sequence.
- `json.Unmarshal` is left out. A unit's arguments are the value decoding leaves, which may be partly filled when a field has the wrong type. A payload the decoder rejects outright leaves the zero arguments. The handler carries on with either.
- Logging throughout is left out.
- The ALR worker's internals, which are in a package outside this model, are left out. Its run is an injected list of output files and an optional error.
- Queueing.MasterQueue.ProcessAlrJob: always records all of its outputs before reporting its error. A worker that fails before writing anything is the run with no outputs. A worker whose insert of keys fails is not modelled.
- SQL text, the query builder, and the `-1` count returned alongside a count error are left out.
- Postgres.Repository.UpdateJob: an error from `RowsAffected` after a successful statement is not modelled, because the driver's reasons for it are outside this model. Only a statement that fails as a whole is modelled.
- Postgres.Repository.CreateJobKeys: an empty slice is modelled as an error with nothing appended. The query builder emits an insert without a VALUES list, which the database rejects. The exact error text is not modelled.
- Postgres.GetJobKey: when several rows match, the database returns one of them unspecified, and the model returns the first in insertion order. The contract states only that the id belongs to a matching row.
- Queueing.MasterQueue.StartAlrJob: the text of the int64 conversion error is left open. The contract states only that the result is an `IdConversionFailed` retry.
- The wrapping of error messages with `fmt.Errorf` is reduced to the `RetryReason` constructors, which carry the wrapped cause.
- `os.Rename` is reduced to moving a job id from the set of staged jobs to the set of published jobs. It fails when the job has nothing staged, when the job is already published, or when the injected fault says so. Directory contents are not modelled: a staged directory is one the worker has written output into.
- `GetACOByUUID` and `GetCCLFBeneficiaryByID` are left out, because the handler never reads those tables.
- `bcda/alr/gen/synthetic.go` and `bcda/errors/errors.go` are not part of this model. The first generates random test data, and the second holds error types that only format messages.
- Only the five job statuses the handler and the store use are modelled.
- Timestamps are abstract integers, and `NOW()` is the `now` parameter of each statement.
