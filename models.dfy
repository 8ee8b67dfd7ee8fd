/** The value types shared by the job store and the ALR handler: the fixed-width
    integers of the Go code, job statuses, the rows of the `jobs` and `job_keys`
    tables and the que-go job envelope. */
module Models {

  datatype Option<+T> = None | Some(value: T)

  datatype Result<+T, +E> = Success(value: T) | Failure(error: E)

  const MAX_INT64: int := 0x7fff_ffff_ffff_ffff

  /** Go's `uint` on a 64-bit platform: job ids. */
  type uint64 = x: int | 0 <= x <= 0xffff_ffff_ffff_ffff

  /** Go's `int64`: que job ids. */
  type int64 = x: int | -0x8000_0000_0000_0000 <= x <= 0x7fff_ffff_ffff_ffff

  /** Go's `int32`: que-go's error count and the queue's retry limit. */
  type int32 = x: int | -0x8000_0000 <= x <= 0x7fff_ffff

  datatype JobStatus = Pending | InProgress | Completed | Failed | Cancelled

  /** A row of the `jobs` table; timestamps are abstract clock readings. */
  datatype Job = Job(
    id: uint64,
    acoId: string,
    requestUrl: string,
    status: JobStatus,
    transactionTime: int,
    jobCount: int,
    createdAt: int,
    updatedAt: int)

  /** A row of the `job_keys` table; `queJobId` is the nullable `que_job_id` column. */
  datatype JobKey = JobKey(
    id: nat,
    jobId: uint64,
    queJobId: Option<int64>,
    fileName: string,
    resourceType: string)

  /** The part of the ALR enqueue arguments the handler reads. */
  datatype JobAlrEnqueueArgs = JobAlrEnqueueArgs(id: uint64, cmsId: string)

  /** A que-go job as delivered: its id, its arguments and the number of earlier
      deliveries that failed. `args` is the value JSON decoding leaves, which may be
      partly filled when a field has the wrong type; `None` is a payload the decoder
      rejects outright, such as malformed JSON. */
  datatype QueJob = QueJob(id: int64, args: Option<JobAlrEnqueueArgs>, errorCount: int32)

  /** The arguments the handler works with, whether or not decoding reported an error:
      a payload rejected outright leaves the zero value, and the handler carries on with it. */
  function DecodedArgs(queJob: QueJob): (a: JobAlrEnqueueArgs)
    ensures queJob.args.Some? ==> a == queJob.args.value
    ensures queJob.args.None? ==> a.id == 0 && a.cmsId == ""
  {
    match queJob.args
    case Some(args) => args
    case None => JobAlrEnqueueArgs(0, "")
  }

  /** The checked conversion of an unsigned job id to `int64`. */
  function ToInt64(x: uint64): (r: Result<int64, string>)
    ensures r.Success? <==> x <= MAX_INT64
    ensures r.Success? ==> r.value == x
  {
    if x <= MAX_INT64 then Success(x) else Failure("value exceeds the int64 range")
  }
}
