/** The ALR job handler of the master queue: one delivery of a que job is checked
    against the job store, handed to the ALR worker, and, when it was the last unit
    of its job, finishes the job by moving its output and marking it Completed.

    The collaborators the handler cannot see are injected through `Collaborators`:
    each store statement's transient fault, what the ALR worker writes and whether it
    fails, and whether the rename of the output directory fails. */
module Queueing {
  import opened Models
  import opened Postgres

  // ---------------------------------------------------------------------------
  // completion
  // ---------------------------------------------------------------------------

  datatype CompletionError = JobFetchFailed(cause: RepoError) | KeyCountFailed(cause: RepoError)

  /** Whether the job has all its units: a Completed job has; a Cancelled or Failed one
      never has, whatever its keys; any other one has once its keys name at least
      `jobCount` distinct que jobs. */
  function IsJobComplete(jobs: JobTable, keys: seq<JobKey>, jobId: uint64, fetch: DbFault, count: DbFault)
    : (r: Result<bool, CompletionError>)
    ensures fetch.Fault? ==> r == Failure(JobFetchFailed(DbError(fetch.detail)))
    ensures fetch.NoFault? && jobId !in jobs ==> r == Failure(JobFetchFailed(ErrJobNotFound))
    ensures fetch.NoFault? && jobId in jobs && jobs[jobId].status == Completed ==> r == Success(true)
    ensures fetch.NoFault? && jobId in jobs && jobs[jobId].status in {Cancelled, Failed} ==> r == Success(false)
    ensures fetch.NoFault? && jobId in jobs && jobs[jobId].status in {Pending, InProgress} ==>
      r == if count.Fault? then Failure(KeyCountFailed(DbError(count.detail)))
           else Success(|QueJobIds(keys, jobId)| >= jobs[jobId].jobCount)
  {
    match GetJobByID(jobs, jobId, fetch)
    case Failure(e) => Failure(JobFetchFailed(e))
    case Success(j) =>
      if j.status == Completed then Success(true)
      else if j.status == Cancelled || j.status == Failed then Success(false)
      else
        match GetUniqueJobKeyCount(keys, jobId, count)
        case Failure(e) => Failure(KeyCountFailed(e))
        case Success(n) => Success(n >= j.jobCount)
  }

  /** More key rows never make a complete job incomplete. */
  lemma CompletionIsMonotone(jobs: JobTable, keys: seq<JobKey>, more: seq<JobKey>, jobId: uint64, count: DbFault)
    requires IsJobComplete(jobs, keys, jobId, NoFault, count) == Success(true)
    ensures IsJobComplete(jobs, keys + more, jobId, NoFault, count) == Success(true)
  {
    QueJobIdsGrow(keys, more, jobId);
  }

  // ---------------------------------------------------------------------------
  // the handler's collaborators and result
  // ---------------------------------------------------------------------------

  /** Why a delivery must be redelivered. */
  datatype RetryReason =
    | JobNotRetrieved
    | ValidationFailed(cause: RepoError)
    | KeySearchFailed(cause: RepoError)
    | IdConversionFailed(detail: string)
    | StatusUpdateFailed(cause: RepoError)
    | ProcessorFailed(detail: string)
    | CompletionCheckFailed(check: CompletionError)
    | RenameFailed
    | CompletionUpdateFailed(cause: RepoError)

  /** A nil error, which removes the que job from the queue, or an error, which has it
      delivered again. */
  datatype HandlerResult = Drop | Retry(reason: RetryReason)

  /** One output file of the ALR worker. */
  datatype Artifact = Artifact(fileName: string, resourceType: string)

  /** What one run of the ALR worker does: the files it records as job keys, then its error. */
  datatype ProcessorRun = ProcessorRun(outputs: seq<Artifact>, error: Option<string>)

  datatype Collaborators = Collaborators(
    jobFetch: DbFault,
    keyLookup: DbFault,
    failUpdate: DbFault,
    startUpdate: DbFault,
    processor: ProcessorRun,
    completionFetch: DbFault,
    keyCount: DbFault,
    renameFails: bool,
    completeUpdate: DbFault)

  /** The job keys the worker records for one que job of one job. */
  function KeysFor(jobId: uint64, queJobId: int64, outputs: seq<Artifact>): (keys: seq<JobKey>)
    ensures |keys| == |outputs|
    ensures forall i :: 0 <= i < |outputs| ==>
      keys[i].jobId == jobId && keys[i].queJobId == Some(queJobId) &&
      keys[i].fileName == outputs[i].fileName && keys[i].resourceType == outputs[i].resourceType
  {
    seq(|outputs|, i requires 0 <= i < |outputs| =>
      JobKey(0, jobId, Some(queJobId), outputs[i].fileName, outputs[i].resourceType))
  }

  /** Once the worker has recorded any output for a que job, the job key lookup finds it. */
  lemma RecordedOutputIsFound(keys: seq<JobKey>, next: nat, jobId: uint64, queJobId: int64, outputs: seq<Artifact>)
    requires outputs != []
    ensures HasJobKey(keys + Stamped(KeysFor(jobId, queJobId, outputs), next), jobId, queJobId)
  {
    var all := keys + Stamped(KeysFor(jobId, queJobId, outputs), next);
    assert KeyMatches(all[|keys|], jobId, queJobId);
  }

  // ---------------------------------------------------------------------------
  // the stages of the handler, as conditions on the state it starts from
  // ---------------------------------------------------------------------------

  /** The lookup found the job, and it is neither Cancelled nor Failed. */
  predicate Live(jobs: JobTable, queJob: QueJob, env: Collaborators) {
    var id := DecodedArgs(queJob).id;
    env.jobFetch.NoFault? && id in jobs && jobs[id].status != Cancelled && jobs[id].status != Failed
  }

  /** Moreover no job key records this que job. */
  ghost predicate Unprocessed(jobs: JobTable, keys: seq<JobKey>, queJob: QueJob, env: Collaborators) {
    Live(jobs, queJob, env) && env.keyLookup.NoFault? && !HasJobKey(keys, DecodedArgs(queJob).id, queJob.id)
  }

  /** Moreover the id converts and the delivery is within the retry budget. */
  ghost predicate Admitted(jobs: JobTable, keys: seq<JobKey>, queJob: QueJob, env: Collaborators, maxRetry: int32) {
    Unprocessed(jobs, keys, queJob, env) && DecodedArgs(queJob).id <= MAX_INT64 && queJob.errorCount <= maxRetry
  }

  /** Moreover the Pending-to-InProgress update did not fail: the worker runs. */
  ghost predicate Started(jobs: JobTable, keys: seq<JobKey>, queJob: QueJob, env: Collaborators, maxRetry: int32) {
    Admitted(jobs, keys, queJob, env, maxRetry) && env.startUpdate.NoFault?
  }

  /** The staged job directories after a worker run: the worker writes its output files
      under the job's staging directory. */
  function StagedAfter(staged: set<uint64>, jobId: uint64, outputs: seq<Artifact>): (dirs: set<uint64>)
    ensures outputs != [] ==> dirs == staged + {jobId}
    ensures outputs == [] ==> dirs == staged
  {
    if outputs != [] then staged + {jobId} else staged
  }

  /** The job table after the compare-and-set from Pending to InProgress. */
  function StartedJobs(jobs: JobTable, jobId: uint64, now: int): (t: JobTable) {
    if jobId in jobs && jobs[jobId].status == Pending then WithStatus(jobs, jobId, InProgress, now) else jobs
  }

  // ---------------------------------------------------------------------------
  // the queue
  // ---------------------------------------------------------------------------

  class MasterQueue {
    const repo: Repository
    const maxRetry: int32
    /** The jobs with an output directory under the staging directory. */
    var stagingDirs: set<uint64>
    /** The jobs with a published, non-empty output directory under the payload directory. */
    var payloadDirs: set<uint64>

    ghost predicate Valid()
      reads this, repo
    {
      repo.Valid()
    }

    constructor (repo: Repository, maxRetry: int32, staged: set<uint64>, published: set<uint64>)
      requires repo.Valid()
      ensures Valid()
      ensures this.repo == repo && this.maxRetry == maxRetry
      ensures stagingDirs == staged && payloadDirs == published
    {
      this.repo := repo;
      this.maxRetry := maxRetry;
      stagingDirs := staged;
      payloadDirs := published;
    }

    /** Moves the job's directory from the staging to the payload directory. It fails when
        there is nothing staged for the job, when a published directory is already in the
        way, or for another reason of the file system. */
    method Rename(jobId: uint64, fails: bool) returns (ok: bool)
      modifies this
      ensures ok == (!fails && jobId in old(stagingDirs) && jobId !in old(payloadDirs))
      ensures ok ==> stagingDirs == old(stagingDirs) - {jobId} && payloadDirs == old(payloadDirs) + {jobId}
      ensures !ok ==> unchanged(this)
    {
      ok := !fails && jobId in stagingDirs && jobId !in payloadDirs;
      if ok {
        stagingDirs := stagingDirs - {jobId};
        payloadDirs := payloadDirs + {jobId};
      }
    }

    /** The ALR worker: writes its output files under the job's staging directory, records
        them as job keys of this job and que job, then reports its error, if any. */
    method ProcessAlrJob(queJobId: int64, args: JobAlrEnqueueArgs, run: ProcessorRun) returns (err: Option<string>)
      requires Valid()
      modifies this, repo
      ensures Valid()
      ensures stagingDirs == StagedAfter(old(stagingDirs), args.id, run.outputs) && payloadDirs == old(payloadDirs)
      ensures repo.jobs == old(repo.jobs)
      ensures repo.jobKeys == old(repo.jobKeys) + Stamped(KeysFor(args.id, queJobId, run.outputs), old(repo.nextKeyId))
      ensures repo.nextKeyId == old(repo.nextKeyId) + |run.outputs|
      ensures err == run.error
    {
      if run.outputs != [] {
        stagingDirs := stagingDirs + {args.id};
        var ignored := repo.CreateJobKeys(KeysFor(args.id, queJobId, run.outputs), NoFault);
      } else {
        assert Stamped([], repo.nextKeyId) == [];
      }
      err := run.error;
    }

    /** The validation of a delivery, before any change: `None` when the handler goes on,
        or the result it returns right away. */
    method ValidateAlrJob(queJob: QueJob, env: Collaborators) returns (exit: Option<HandlerResult>)
      ensures env.jobFetch.Fault? ==> exit == Some(Retry(ValidationFailed(DbError(env.jobFetch.detail))))
      ensures env.jobFetch.NoFault? && DecodedArgs(queJob).id !in repo.jobs ==>
        exit == Some(if queJob.errorCount >= maxRetry then Drop else Retry(JobNotRetrieved))
      ensures env.jobFetch.NoFault? && DecodedArgs(queJob).id in repo.jobs &&
              repo.jobs[DecodedArgs(queJob).id].status in {Cancelled, Failed} ==>
        exit == Some(Drop)
      ensures Live(repo.jobs, queJob, env) && env.keyLookup.Fault? ==>
        exit == Some(Retry(KeySearchFailed(DbError(env.keyLookup.detail))))
      ensures Live(repo.jobs, queJob, env) && env.keyLookup.NoFault? &&
              HasJobKey(repo.jobKeys, DecodedArgs(queJob).id, queJob.id) ==>
        exit == Some(Drop)
      ensures exit.None? <==> Unprocessed(repo.jobs, repo.jobKeys, queJob, env)
    {
      var args := DecodedArgs(queJob);
      var found := GetJobByID(repo.jobs, args.id, env.jobFetch);
      if found.Failure? {
        if found.error == ErrJobNotFound {
          if queJob.errorCount >= maxRetry {
            return Some(Drop);
          }
          return Some(Retry(JobNotRetrieved));
        }
        return Some(Retry(ValidationFailed(found.error)));
      }
      var job := found.value;
      if job.status == Cancelled {
        return Some(Drop);
      }
      if job.status == Failed {
        return Some(Drop);
      }
      var key := GetJobKey(repo.jobKeys, args.id, queJob.id, env.keyLookup);
      if key.Success? {
        return Some(Drop);
      }
      if key.error != ErrJobKeyNotFound {
        return Some(Retry(KeySearchFailed(key.error)));
      }
      return None;
    }

    /** The end of a delivery whose worker run succeeded: the completion check, then the
        rename of the output, then the Completed status. */
    method FinishAlrJob(jobId: uint64, env: Collaborators, now: int) returns (r: HandlerResult)
      requires Valid()
      modifies this, repo
      ensures Valid()
      ensures repo.jobKeys == old(repo.jobKeys) && repo.nextKeyId == old(repo.nextKeyId)
      ensures
        var complete := IsJobComplete(old(repo.jobs), old(repo.jobKeys), jobId, env.completionFetch, env.keyCount);
        && (complete.Failure? ==>
              r == Retry(CompletionCheckFailed(complete.error)) && repo.jobs == old(repo.jobs) && unchanged(this))
        && (complete == Success(false) ==>
              r == Drop && repo.jobs == old(repo.jobs) && unchanged(this))
        && (complete == Success(true) && (env.renameFails || jobId !in old(stagingDirs) || jobId in old(payloadDirs)) ==>
              r == Retry(RenameFailed) && repo.jobs == old(repo.jobs) && unchanged(this))
        && (complete == Success(true) && !env.renameFails && jobId in old(stagingDirs) && jobId !in old(payloadDirs) ==>
              && stagingDirs == old(stagingDirs) - {jobId} && payloadDirs == old(payloadDirs) + {jobId}
              && repo.jobs == (if env.completeUpdate.NoFault? then WithStatus(old(repo.jobs), jobId, Completed, now)
                               else old(repo.jobs))
              && r == (if env.completeUpdate.NoFault? then Drop
                       else Retry(CompletionUpdateFailed(DbError(env.completeUpdate.detail)))))
    {
      var complete := IsJobComplete(repo.jobs, repo.jobKeys, jobId, env.completionFetch, env.keyCount);
      if complete.Failure? {
        return Retry(CompletionCheckFailed(complete.error));
      }
      if complete.value {
        var moved := Rename(jobId, env.renameFails);
        if !moved {
          return Retry(RenameFailed);
        }
        var err := repo.UpdateJobStatus(jobId, Completed, now, env.completeUpdate);
        if err.Some? {
          return Retry(CompletionUpdateFailed(err.value));
        }
      }
      return Drop;
    }

    /** One delivery of an ALR que job. */
    method StartAlrJob(queJob: QueJob, env: Collaborators, now: int) returns (r: HandlerResult)
      requires Valid()
      modifies this, repo
      ensures Valid()
      // Only the handled job's row can change, and no row is added or removed.
      ensures repo.jobs.Keys == old(repo.jobs).Keys
      ensures forall j :: j in old(repo.jobs) && j != DecodedArgs(queJob).id ==> repo.jobs[j] == old(repo.jobs)[j]
      // Lookup: a store error, or a job that does not exist.
      ensures env.jobFetch.Fault? ==>
        r == Retry(ValidationFailed(DbError(env.jobFetch.detail))) && unchanged(this, repo)
      ensures env.jobFetch.NoFault? && DecodedArgs(queJob).id !in old(repo.jobs) ==>
        r == (if queJob.errorCount >= maxRetry then Drop else Retry(JobNotRetrieved)) && unchanged(this, repo)
      // A Cancelled or Failed job is left alone.
      ensures env.jobFetch.NoFault? && DecodedArgs(queJob).id in old(repo.jobs) &&
              old(repo.jobs)[DecodedArgs(queJob).id].status in {Cancelled, Failed} ==>
        r == Drop && unchanged(this, repo)
      // Replay: a que job already recorded by a job key is not processed again.
      ensures Live(old(repo.jobs), queJob, env) && env.keyLookup.Fault? ==>
        r == Retry(KeySearchFailed(DbError(env.keyLookup.detail))) && unchanged(this, repo)
      ensures Live(old(repo.jobs), queJob, env) && env.keyLookup.NoFault? &&
              HasJobKey(old(repo.jobKeys), DecodedArgs(queJob).id, queJob.id) ==>
        r == Drop && unchanged(this, repo)
      // The id must fit an int64.
      ensures Unprocessed(old(repo.jobs), old(repo.jobKeys), queJob, env) && DecodedArgs(queJob).id > MAX_INT64 ==>
        r.Retry? && r.reason.IdConversionFailed? && unchanged(this, repo)
      // Retry budget exceeded: the job is marked Failed, best effort, and the delivery dropped.
      ensures Unprocessed(old(repo.jobs), old(repo.jobKeys), queJob, env) && DecodedArgs(queJob).id <= MAX_INT64 &&
              queJob.errorCount > maxRetry ==>
        && r == Drop
        && repo.jobs == (if env.failUpdate.NoFault? then WithStatus(old(repo.jobs), DecodedArgs(queJob).id, Failed, now)
                         else old(repo.jobs))
        && repo.jobKeys == old(repo.jobKeys) && unchanged(this)
      // The compare-and-set: only an error other than "no row matched" stops the handler.
      ensures Admitted(old(repo.jobs), old(repo.jobKeys), queJob, env, maxRetry) && env.startUpdate.Fault? ==>
        r == Retry(StatusUpdateFailed(DbError(env.startUpdate.detail))) && unchanged(this, repo)
      // The worker runs exactly when every check passed, and only the worker adds job keys.
      ensures Started(old(repo.jobs), old(repo.jobKeys), queJob, env, maxRetry) ==>
        repo.jobKeys == old(repo.jobKeys) + Stamped(KeysFor(DecodedArgs(queJob).id, queJob.id, env.processor.outputs), old(repo.nextKeyId))
      ensures !Started(old(repo.jobs), old(repo.jobKeys), queJob, env, maxRetry) ==>
        repo.jobKeys == old(repo.jobKeys)
      ensures repo.nextKeyId == old(repo.nextKeyId) +
        (if Started(old(repo.jobs), old(repo.jobKeys), queJob, env, maxRetry) then |env.processor.outputs| else 0)
      // A worker error is returned as it is, with nothing done after it.
      ensures Started(old(repo.jobs), old(repo.jobKeys), queJob, env, maxRetry) && env.processor.error.Some? ==>
        && r == Retry(ProcessorFailed(env.processor.error.value))
        && repo.jobs == StartedJobs(old(repo.jobs), DecodedArgs(queJob).id, now)
        && stagingDirs == StagedAfter(old(stagingDirs), DecodedArgs(queJob).id, env.processor.outputs)
        && payloadDirs == old(payloadDirs)
      // After the worker: the completion check, then the rename, then the Completed status.
      ensures Started(old(repo.jobs), old(repo.jobKeys), queJob, env, maxRetry) && env.processor.error.None? ==>
        var id := DecodedArgs(queJob).id;
        var started := StartedJobs(old(repo.jobs), id, now);
        var staged := StagedAfter(old(stagingDirs), id, env.processor.outputs);
        var complete := IsJobComplete(started, repo.jobKeys, id, env.completionFetch, env.keyCount);
        && (complete.Failure? ==>
              && r == Retry(CompletionCheckFailed(complete.error)) && repo.jobs == started
              && stagingDirs == staged && payloadDirs == old(payloadDirs))
        && (complete == Success(false) ==>
              && r == Drop && repo.jobs == started
              && stagingDirs == staged && payloadDirs == old(payloadDirs))
        && (complete == Success(true) && (env.renameFails || id !in staged || id in old(payloadDirs)) ==>
              && r == Retry(RenameFailed) && repo.jobs == started
              && stagingDirs == staged && payloadDirs == old(payloadDirs))
        && (complete == Success(true) && !env.renameFails && id in staged && id !in old(payloadDirs) ==>
              && stagingDirs == staged - {id} && payloadDirs == old(payloadDirs) + {id}
              && repo.jobs == (if env.completeUpdate.NoFault? then WithStatus(started, id, Completed, now) else started)
              && r == (if env.completeUpdate.NoFault? then Drop
                       else Retry(CompletionUpdateFailed(DbError(env.completeUpdate.detail)))))
    {
      var exit := ValidateAlrJob(queJob, env);
      if exit.Some? {
        return exit.value;
      }
      var args := DecodedArgs(queJob);
      var converted := ToInt64(args.id);
      if converted.Failure? {
        return Retry(IdConversionFailed(converted.error));
      }
      if queJob.errorCount > maxRetry {
        var ignored := repo.UpdateJobStatus(args.id, Failed, now, env.failUpdate);
        return Drop;
      }
      var err := repo.UpdateJobStatusCheckStatus(args.id, Pending, InProgress, now, env.startUpdate);
      if err.Some? && err.value != ErrJobNotUpdated {
        return Retry(StatusUpdateFailed(err.value));
      }
      var failure := ProcessAlrJob(queJob.id, args, env.processor);
      if failure.Some? {
        return Retry(ProcessorFailed(failure.value));
      }
      r := FinishAlrJob(args.id, env, now);
    }
  }
}
