/** Sequences of deliveries against a small store, and the redelivery property that
    relates two deliveries of the same que job. */
module Scenarios {
  import opened Models
  import opened Postgres
  import opened Queueing

  /** No store statement fails, the worker writes `outputs` and succeeds, the rename works. */
  function Healthy(outputs: seq<Artifact>): (env: Collaborators)
    ensures env.processor == ProcessorRun(outputs, None) && !env.renameFails
    ensures env.jobFetch.NoFault? && env.keyLookup.NoFault? && env.startUpdate.NoFault?
    ensures env.completionFetch.NoFault? && env.keyCount.NoFault? && env.completeUpdate.NoFault?
  {
    Collaborators(NoFault, NoFault, NoFault, NoFault, ProcessorRun(outputs, None), NoFault, NoFault, false, NoFault)
  }

  function AlrJob(id: uint64, status: JobStatus, jobCount: int): (j: Job)
    ensures j.id == id && j.status == status && j.jobCount == jobCount
  {
    Job(id, "A0001", "/api/v2/alr/$export", status, 0, jobCount, 0, 0)
  }

  function Unit(queJobId: int64, jobId: uint64, errorCount: int32): (u: QueJob)
    ensures DecodedArgs(u).id == jobId && u.id == queJobId && u.errorCount == errorCount
  {
    QueJob(queJobId, Some(JobAlrEnqueueArgs(jobId, "A0001")), errorCount)
  }

  /** The compare-and-set succeeds once: the second attempt finds the job no longer Pending. */
  method CompareAndSetOnce() returns (first: Option<RepoError>, second: Option<RepoError>, status: JobStatus)
    ensures first == None && second == Some(ErrJobNotUpdated) && status == InProgress
  {
    var repo := new Repository(map[7 := AlrJob(7, Pending, 2)]);
    first := repo.UpdateJobStatusCheckStatus(7, Pending, InProgress, 1, NoFault);
    second := repo.UpdateJobStatusCheckStatus(7, Pending, InProgress, 2, NoFault);
    status := repo.jobs[7].status;
  }

  /** The row the worker records for a single output. */
  lemma OneRow(jobId: uint64, queJobId: int64, a: Artifact, next: nat)
    ensures Stamped(KeysFor(jobId, queJobId, [a]), next) == [JobKey(next, jobId, Some(queJobId), a.fileName, a.resourceType)]
  {
    var rows := Stamped(KeysFor(jobId, queJobId, [a]), next);
    assert rows[0] == JobKey(next, jobId, Some(queJobId), a.fileName, a.resourceType);
  }

  /** The distinct que jobs of one and of two key rows. */
  lemma DistinctUnits(k1: JobKey, k2: JobKey)
    requires k1.jobId == 7 && k2.jobId == 7 && k1.queJobId == Some(100) && k2.queJobId == Some(101)
    ensures |QueJobIds([k1], 7)| == 1 && |QueJobIds([k1, k2], 7)| == 2
  {
    assert QueJobIds([], 7) == {};
    QueJobIdsSnoc([], k1, 7);
    assert [] + [k1] == [k1];
    QueJobIdsSnoc([k1], k2, 7);
    assert [k1] + [k2] == [k1, k2];
    assert QueJobIds([k1, k2], 7) == {100, 101};
  }

  /** The first unit of a job of two starts the job: Pending becomes InProgress, its
      output is recorded, and the job is not complete yet. */
  method FirstUnitStartsJob() returns (r: HandlerResult, status: JobStatus, keys: seq<JobKey>)
    ensures r == Drop && status == InProgress
    ensures keys == [JobKey(1, 7, Some(100), "7/0.ndjson", "Patient")]
  {
    var repo := new Repository(map[7 := AlrJob(7, Pending, 2)]);
    var q := new MasterQueue(repo, 3, {7}, {});
    var k1 := JobKey(1, 7, Some(100), "7/0.ndjson", "Patient");
    DistinctUnits(k1, k1.(id := 2, queJobId := Some(101)));
    OneRow(7, 100, Artifact("7/0.ndjson", "Patient"), 1);
    r := q.StartAlrJob(Unit(100, 7, 0), Healthy([Artifact("7/0.ndjson", "Patient")]), 1);
    status := repo.jobs[7].status;
    keys := repo.jobKeys;
  }

  /** The keys after the second unit of a two-unit job complete it. */
  lemma SecondUnitCompletes(jobs: JobTable, k1: JobKey, a: Artifact)
    requires jobs == map[7 := AlrJob(7, InProgress, 2)]
    requires k1 == JobKey(1, 7, Some(100), "7/0.ndjson", "Patient")
    ensures !HasJobKey([k1], 7, 101)
    ensures IsJobComplete(StartedJobs(jobs, 7, 2), [k1] + Stamped(KeysFor(7, 101, [a]), 2), 7, NoFault, NoFault)
         == Success(true)
  {
    var k2 := JobKey(2, 7, Some(101), a.fileName, a.resourceType);
    OneRow(7, 101, a, 2);
    DistinctUnits(k1, k2);
    assert [k1] + [k2] == [k1, k2];
  }

  /** The second unit of that job completes it: the output is published and the job
      marked Completed. */
  method LastUnitCompletesJob() returns (r: HandlerResult, status: JobStatus, published: bool)
    ensures r == Drop && status == Completed && published
  {
    var jobs0 := map[7 := AlrJob(7, InProgress, 2)];
    var k1 := JobKey(1, 7, Some(100), "7/0.ndjson", "Patient");
    var a := Artifact("7/1.ndjson", "Patient");
    var repo := new Repository(jobs0);
    var ignored := repo.CreateJobKey(k1.(id := 0), NoFault);
    var q := new MasterQueue(repo, 3, {7}, {});
    SecondUnitCompletes(jobs0, k1, a);
    assert repo.jobKeys == [k1] && repo.nextKeyId == 2 && repo.jobs == jobs0;
    r := q.StartAlrJob(Unit(101, 7, 0), Healthy([a]), 2);
    status := repo.jobs[7].status;
    published := 7 in q.payloadDirs && 7 !in q.stagingDirs;
  }

  /** A unit of a job that is not in the store is retried until its retry budget is used
      up, and then dropped; nothing is written. */
  method MissingJobDropped() returns (early: HandlerResult, late: HandlerResult, unchangedStore: bool)
    ensures early == Retry(JobNotRetrieved) && late == Drop && unchangedStore
  {
    var repo := new Repository(map[]);
    var q := new MasterQueue(repo, 3, {}, {});
    var env := Healthy([]);
    early := q.StartAlrJob(Unit(100, 99, 2), env, 1);
    late := q.StartAlrJob(Unit(100, 99, 3), env, 2);
    unchangedStore := repo.jobs == map[] && repo.jobKeys == [];
  }

  /** A unit of a Cancelled job is dropped without running the worker. */
  method CancelledJobIgnored() returns (r: HandlerResult, status: JobStatus, keys: nat)
    ensures r == Drop && status == Cancelled && keys == 0
  {
    var repo := new Repository(map[7 := AlrJob(7, Cancelled, 2)]);
    var q := new MasterQueue(repo, 3, {7}, {});
    r := q.StartAlrJob(Unit(100, 7, 0), Healthy([Artifact("7/0.ndjson", "Patient")]), 1);
    status := repo.jobs[7].status;
    keys := |repo.jobKeys|;
  }

  /** At exactly the retry limit a unit is still processed. */
  method AtRetryLimitProceeds() returns (r: HandlerResult, status: JobStatus, keys: nat)
    ensures r == Drop && status == InProgress && keys == 1
  {
    var repo := new Repository(map[7 := AlrJob(7, Pending, 3)]);
    var q := new MasterQueue(repo, 3, {7}, {});
    var k1 := JobKey(1, 7, Some(100), "7/0.ndjson", "Patient");
    DistinctUnits(k1, k1.(id := 2, queJobId := Some(101)));
    OneRow(7, 100, Artifact("7/0.ndjson", "Patient"), 1);
    r := q.StartAlrJob(Unit(100, 7, 3), Healthy([Artifact("7/0.ndjson", "Patient")]), 1);
    status := repo.jobs[7].status;
    keys := |repo.jobKeys|;
  }

  /** Beyond the retry limit the job is failed and the worker does not run. */
  method BeyondRetryLimitFailsJob() returns (r: HandlerResult, status: JobStatus, keys: nat)
    ensures r == Drop && status == Failed && keys == 0
  {
    var repo := new Repository(map[7 := AlrJob(7, InProgress, 3)]);
    var q := new MasterQueue(repo, 3, {7}, {});
    r := q.StartAlrJob(Unit(101, 7, 4), Healthy([Artifact("7/0.ndjson", "Patient")]), 2);
    status := repo.jobs[7].status;
    keys := |repo.jobKeys|;
  }

  /** When the last unit's rename fails, the job stays InProgress with its output staged
      and the unit is retried. */
  method LastUnitRenameFails() returns (r: HandlerResult, status: JobStatus, keys: nat, staged: bool)
    ensures r == Retry(RenameFailed) && status == InProgress && keys == 1 && staged
  {
    var repo := new Repository(map[7 := AlrJob(7, InProgress, 1)]);
    var q := new MasterQueue(repo, 3, {}, {});
    var k1 := JobKey(1, 7, Some(100), "7/0.ndjson", "Patient");
    DistinctUnits(k1, k1.(id := 2, queJobId := Some(101)));
    OneRow(7, 100, Artifact("7/0.ndjson", "Patient"), 1);
    var env := Healthy([Artifact("7/0.ndjson", "Patient")]).(renameFails := true);
    r := q.StartAlrJob(Unit(100, 7, 0), env, 1);
    status := repo.jobs[7].status;
    keys := |repo.jobKeys|;
    staged := 7 in q.stagingDirs;
  }

  /** Its retry, however, finds the job key the worker recorded and is dropped: the rename
      is not attempted again, and the job stays InProgress with its output staged. */
  method RetriedRenameDropped() returns (r: HandlerResult, status: JobStatus, staged: bool, published: bool)
    ensures r == Drop && status == InProgress && staged && !published
  {
    var repo := new Repository(map[7 := AlrJob(7, InProgress, 1)]);
    var ignored := repo.CreateJobKey(JobKey(0, 7, Some(100), "7/0.ndjson", "Patient"), NoFault);
    var q := new MasterQueue(repo, 3, {7}, {});
    assert KeyMatches(repo.jobKeys[0], 7, 100);
    r := q.StartAlrJob(Unit(100, 7, 1), Healthy([Artifact("7/0.ndjson", "Patient")]), 2);
    status := repo.jobs[7].status;
    staged := 7 in q.stagingDirs;
    published := 7 in q.payloadDirs;
  }

  /** Completed is not among the statuses the handler skips: a late unit of a Completed
      job runs the worker, which writes its output under the staging directory again;
      the job is complete, but the rename cannot replace the published directory, so
      the unit is retried. */
  method LateUnitOfCompletedJobRetried() returns (r: HandlerResult, status: JobStatus, keys: nat)
    ensures r == Retry(RenameFailed) && status == Completed && keys == 1
  {
    var repo := new Repository(map[7 := AlrJob(7, Completed, 1)]);
    var q := new MasterQueue(repo, 3, {}, {7});
    OneRow(7, 200, Artifact("7/1.ndjson", "Patient"), 1);
    r := q.StartAlrJob(Unit(200, 7, 0), Healthy([Artifact("7/1.ndjson", "Patient")]), 1);
    status := repo.jobs[7].status;
    keys := |repo.jobKeys|;
  }

  /** That unit recorded a job key, so its retry is dropped and the job stays Completed. */
  method LateUnitRedeliveryDropped() returns (r: HandlerResult, status: JobStatus)
    ensures r == Drop && status == Completed
  {
    var repo := new Repository(map[7 := AlrJob(7, Completed, 1)]);
    var ignored := repo.CreateJobKey(JobKey(0, 7, Some(200), "7/1.ndjson", "Patient"), NoFault);
    var q := new MasterQueue(repo, 3, {7}, {7});
    assert KeyMatches(repo.jobKeys[0], 7, 200);
    r := q.StartAlrJob(Unit(200, 7, 4), Healthy([Artifact("7/1.ndjson", "Patient")]), 5);
    status := repo.jobs[7].status;
  }

  /** A late unit of a Completed job whose worker fails before writing anything records no
      job key, and is retried. */
  method LateUnitWithoutOutputRetried() returns (r: HandlerResult, status: JobStatus, keys: nat)
    ensures r == Retry(ProcessorFailed("timeout")) && status == Completed && keys == 0
  {
    var repo := new Repository(map[7 := AlrJob(7, Completed, 1)]);
    var q := new MasterQueue(repo, 3, {}, {7});
    var env := Healthy([]).(processor := ProcessorRun([], Some("timeout")));
    assert Started(repo.jobs, repo.jobKeys, Unit(200, 7, 0), env, 3);
    assert Stamped(KeysFor(7, 200, []), 1) == [];
    r := q.StartAlrJob(Unit(200, 7, 0), env, 1);
    status := repo.jobs[7].status;
    keys := |repo.jobKeys|;
  }

  /** Once such a unit, still without a job key, exceeds its retry budget, it marks the
      Completed job Failed. */
  method LateUnitFailsCompletedJob() returns (r: HandlerResult, status: JobStatus)
    ensures r == Drop && status == Failed
  {
    var repo := new Repository(map[7 := AlrJob(7, Completed, 1)]);
    var q := new MasterQueue(repo, 3, {}, {7});
    var env := Healthy([]).(processor := ProcessorRun([], Some("timeout")));
    r := q.StartAlrJob(Unit(200, 7, 4), env, 5);
    status := repo.jobs[7].status;
  }

  /** A que job whose worker run recorded output is dropped when it is delivered again,
      with any error count and whatever the first delivery's outcome was: the second
      delivery changes nothing, so the worker does not run twice for it and a failed
      rename or Completed update is not attempted again. */
  method RedeliveryIsDropped(q: MasterQueue, queJob: QueJob, errorCount: int32,
                             first: Collaborators, again: Collaborators, now: int, later: int)
    returns (r1: HandlerResult, r2: HandlerResult, jobsAfterFirst: JobTable, stagedAfterFirst: set<uint64>,
             publishedAfterFirst: set<uint64>, nextAfterFirst: nat)
    requires q.Valid()
    requires Started(q.repo.jobs, q.repo.jobKeys, queJob, first, q.maxRetry) && first.processor.outputs != []
    requires again.jobFetch.NoFault? && again.keyLookup.NoFault?
    modifies q, q.repo
    ensures r2 == Drop
    ensures q.repo.jobs == jobsAfterFirst && q.stagingDirs == stagedAfterFirst
    ensures q.payloadDirs == publishedAfterFirst && q.repo.nextKeyId == nextAfterFirst
    ensures nextAfterFirst == old(q.repo.nextKeyId) + |first.processor.outputs|
    ensures q.repo.jobKeys == old(q.repo.jobKeys) +
      Stamped(KeysFor(DecodedArgs(queJob).id, queJob.id, first.processor.outputs), old(q.repo.nextKeyId))
  {
    ghost var keys0, next0 := q.repo.jobKeys, q.repo.nextKeyId;
    r1 := q.StartAlrJob(queJob, first, now);
    jobsAfterFirst, stagedAfterFirst := q.repo.jobs, q.stagingDirs;
    publishedAfterFirst, nextAfterFirst := q.payloadDirs, q.repo.nextKeyId;
    RecordedOutputIsFound(keys0, next0, DecodedArgs(queJob).id, queJob.id, first.processor.outputs);
    r2 := q.StartAlrJob(queJob.(errorCount := errorCount), again, later);
  }
}
