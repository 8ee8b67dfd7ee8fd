/** The job store of the worker: the `jobs` and `job_keys` tables, the queries the
    ALR handler reads them with, and the statements that change them.

    A query is a function of the table contents, so that a caller can state what it
    would answer on any state. A statement is a method of `Repository`, the class
    that holds the two tables. Every statement and query takes a `DbFault`: a
    transient driver or connection error, injected by the caller. */
module Postgres {
  import opened Models

  datatype RepoError = ErrJobNotFound | ErrJobKeyNotFound | ErrJobNotUpdated | DbError(detail: string)

  /** Whether the database executes a statement, or fails it with a driver error. */
  datatype DbFault = NoFault | Fault(detail: string)

  type JobTable = map<uint64, Job>

  /** The primary key of each row is the id it is stored under. */
  ghost predicate WellKeyed(jobs: JobTable) {
    forall id :: id in jobs ==> jobs[id].id == id
  }

  /** Serial ids: increasing in insertion order and below the next value of the sequence. */
  ghost predicate SerialIds(keys: seq<JobKey>, next: nat) {
    && (forall i :: 0 <= i < |keys| ==> keys[i].id < next)
    && (forall i, j :: 0 <= i < j < |keys| ==> keys[i].id < keys[j].id)
  }

  // ---------------------------------------------------------------------------
  // jobs: lookup and the updateJob statement
  // ---------------------------------------------------------------------------

  function GetJobByID(jobs: JobTable, jobId: uint64, fault: DbFault): (r: Result<Job, RepoError>)
    ensures fault.Fault? ==> r == Failure(DbError(fault.detail))
    ensures fault.NoFault? ==> (r.Success? <==> jobId in jobs)
    ensures fault.NoFault? && jobId !in jobs ==> r == Failure(ErrJobNotFound)
    ensures r.Success? ==> jobId in jobs && r.value == jobs[jobId]
  {
    if fault.Fault? then Failure(DbError(fault.detail))
    else if jobId in jobs then Success(jobs[jobId])
    else Failure(ErrJobNotFound)
  }

  /** One equality of the WHERE clause of an update. */
  datatype Clause = IdIs(id: uint64) | StatusIs(status: JobStatus)

  /** One assignment of the SET list of an update. */
  datatype Assignment = SetStatus(status: JobStatus)

  predicate Holds(row: Job, c: Clause) {
    match c
    case IdIs(id) => row.id == id
    case StatusIs(s) => row.status == s
  }

  /** The row satisfies every equality of the WHERE clause. */
  predicate Satisfies(row: Job, clauses: seq<Clause>)
    decreases |clauses|
  {
    clauses == [] || (Holds(row, clauses[0]) && Satisfies(row, clauses[1..]))
  }

  /** The row after `updated_at = NOW()` and the SET list, assigned in order. The SET list
      comes from a Go map, so it never assigns `status` twice; the database would reject a
      statement that did, and the last-one-wins reading for such a list is never used. */
  function Assign(row: Job, sets: seq<Assignment>, now: int): (r: Job)
    decreases |sets|
  {
    if sets == [] then row.(updatedAt := now)
    else Assign(row, sets[..|sets| - 1], now).(status := sets[|sets| - 1].status)
  }

  /** The status the SET list leaves: the last one it assigns, or the old one. */
  function FinalStatus(old_: JobStatus, sets: seq<Assignment>): (s: JobStatus) {
    if sets == [] then old_ else sets[|sets| - 1].status
  }

  /** The ids of the rows the WHERE clause selects. */
  function Matched(jobs: JobTable, clauses: seq<Clause>): (ids: set<uint64>) {
    set id | id in jobs && Satisfies(jobs[id], clauses)
  }

  /** A row after the update: assigned when the WHERE clause selects it, as it was otherwise. */
  function UpdatedRow(row: Job, clauses: seq<Clause>, sets: seq<Assignment>, now: int): (updated: Job) {
    if Satisfies(row, clauses) then Assign(row, sets, now) else row
  }

  /** The table after the update. */
  function Updated(jobs: JobTable, clauses: seq<Clause>, sets: seq<Assignment>, now: int): (t: JobTable) {
    map id | id in jobs :: UpdatedRow(jobs[id], clauses, sets, now)
  }

  /** An update changes only `status` and `updated_at`. */
  lemma {:induction false} AssignOnlyStatus(row: Job, sets: seq<Assignment>, now: int)
    ensures Assign(row, sets, now) == row.(status := FinalStatus(row.status, sets), updatedAt := now)
    decreases |sets|
  {
    if sets != [] {
      AssignOnlyStatus(row, sets[..|sets| - 1], now);
    }
  }

  /** The table after setting one row's status, if that row exists. */
  function WithStatus(jobs: JobTable, jobId: uint64, s: JobStatus, now: int): (t: JobTable)
    ensures t.Keys == jobs.Keys
    ensures jobId in jobs ==> t[jobId] == jobs[jobId].(status := s, updatedAt := now)
    ensures forall id :: id in jobs && id != jobId ==> t[id] == jobs[id]
  {
    if jobId in jobs then jobs[jobId := jobs[jobId].(status := s, updatedAt := now)] else jobs
  }

  /** `WHERE id = jobId SET status = s` selects the row with that id and sets its status. */
  lemma UpdateById(jobs: JobTable, jobId: uint64, s: JobStatus, now: int)
    requires WellKeyed(jobs)
    ensures Matched(jobs, [IdIs(jobId)]) == (if jobId in jobs then {jobId} else {})
    ensures Updated(jobs, [IdIs(jobId)], [SetStatus(s)], now) == WithStatus(jobs, jobId, s, now)
  {
    var clauses := [IdIs(jobId)];
    forall id | id in jobs
      ensures Satisfies(jobs[id], clauses) <==> id == jobId
    {
      assert clauses[1..] == [];
    }
    if jobId in jobs {
      AssignOnlyStatus(jobs[jobId], [SetStatus(s)], now);
    }
  }

  /** `WHERE id = jobId AND status = current SET status = s` selects the row with that id
      exactly when it holds `current`. */
  lemma UpdateByIdAndStatus(jobs: JobTable, jobId: uint64, current: JobStatus, s: JobStatus, now: int)
    requires WellKeyed(jobs)
    ensures Matched(jobs, [IdIs(jobId), StatusIs(current)])
         == (if jobId in jobs && jobs[jobId].status == current then {jobId} else {})
    ensures Updated(jobs, [IdIs(jobId), StatusIs(current)], [SetStatus(s)], now)
         == (if jobId in jobs && jobs[jobId].status == current then WithStatus(jobs, jobId, s, now) else jobs)
  {
    var clauses := [IdIs(jobId), StatusIs(current)];
    forall id | id in jobs
      ensures Satisfies(jobs[id], clauses) <==> id == jobId && jobs[id].status == current
    {
      var row := jobs[id];
      assert Satisfies(row, clauses[1..]) == Holds(row, StatusIs(current)) by {
        assert clauses[1..] == [StatusIs(current)] && clauses[1..][1..] == [];
      }
    }
    if jobId in jobs {
      AssignOnlyStatus(jobs[jobId], [SetStatus(s)], now);
    }
  }

  // ---------------------------------------------------------------------------
  // job_keys: lookup and counts
  // ---------------------------------------------------------------------------

  /** The row matches `job_id = jobId AND que_job_id = queJobId` (a NULL que job id matches nothing). */
  predicate KeyMatches(k: JobKey, jobId: uint64, queJobId: int64) {
    k.jobId == jobId && k.queJobId == Some(queJobId)
  }

  ghost predicate HasJobKey(keys: seq<JobKey>, jobId: uint64, queJobId: int64) {
    exists i :: 0 <= i < |keys| && KeyMatches(keys[i], jobId, queJobId)
  }

  /** The position of the first matching row, scanning in insertion order. */
  function FirstKeyRow(keys: seq<JobKey>, jobId: uint64, queJobId: int64): (r: Option<nat>)
    ensures r.Some? ==> r.value < |keys| && KeyMatches(keys[r.value], jobId, queJobId)
    ensures r.Some? ==> forall i :: 0 <= i < r.value ==> !KeyMatches(keys[i], jobId, queJobId)
    ensures r.None? <==> !HasJobKey(keys, jobId, queJobId)
  {
    if keys == [] then None
    else if KeyMatches(keys[0], jobId, queJobId) then Some(0)
    else
      var rest := FirstKeyRow(keys[1..], jobId, queJobId);
      assert forall i :: 1 <= i < |keys| ==> keys[i] == keys[1..][i - 1];
      match rest
      case None => None
      case Some(i) => Some(i + 1)
  }

  /** The key found is built from the query's own arguments and the matching row's id only:
      its file name and resource type stay empty. */
  function GetJobKey(keys: seq<JobKey>, jobId: uint64, queJobId: int64, fault: DbFault): (r: Result<JobKey, RepoError>)
    ensures fault.Fault? ==> r == Failure(DbError(fault.detail))
    ensures fault.NoFault? ==> (r == Failure(ErrJobKeyNotFound) <==> !HasJobKey(keys, jobId, queJobId))
    ensures fault.NoFault? ==> (r.Success? || r == Failure(ErrJobKeyNotFound))
    ensures r.Success? ==> r.value.jobId == jobId && r.value.queJobId == Some(queJobId)
    ensures r.Success? ==> r.value.fileName == "" && r.value.resourceType == ""
    ensures r.Success? ==> exists i :: 0 <= i < |keys| && KeyMatches(keys[i], jobId, queJobId) && keys[i].id == r.value.id
  {
    if fault.Fault? then Failure(DbError(fault.detail))
    else
      match FirstKeyRow(keys, jobId, queJobId)
      case None => Failure(ErrJobKeyNotFound)
      case Some(i) => Success(JobKey(keys[i].id, jobId, Some(queJobId), "", ""))
  }

  /** The distinct non-NULL que job ids among the job's key rows. */
  ghost function QueJobIds(keys: seq<JobKey>, jobId: uint64): (ids: set<int64>) {
    set k | k in keys && k.jobId == jobId && k.queJobId.Some? :: k.queJobId.value
  }

  /** `COUNT(DISTINCT que_job_id) WHERE job_id = jobId`, computed by a scan that counts a row
      only when its que job id has not been seen earlier in the scan. */
  function DistinctQueJobs(keys: seq<JobKey>, jobId: uint64): (n: nat)
    ensures n == |QueJobIds(keys, jobId)|
    decreases |keys|
  {
    if keys == [] then 0
    else
      var prefix := keys[..|keys| - 1];
      var last := keys[|keys| - 1];
      assert keys == prefix + [last];
      QueJobIdsSnoc(prefix, last, jobId);
      if last.jobId == jobId && last.queJobId.Some? && !SeenBefore(prefix, jobId, last.queJobId.value)
      then DistinctQueJobs(prefix, jobId) + 1
      else DistinctQueJobs(prefix, jobId)
  }

  /** Some earlier row of the job carries this que job id. */
  function SeenBefore(keys: seq<JobKey>, jobId: uint64, queJobId: int64): (b: bool)
    ensures b <==> queJobId in QueJobIds(keys, jobId)
  {
    var r := FirstKeyRow(keys, jobId, queJobId);
    if r.Some? then
      assert keys[r.value] in keys;
      true
    else
      assert forall k :: k in keys ==> !KeyMatches(k, jobId, queJobId) by {
        forall k | k in keys ensures !KeyMatches(k, jobId, queJobId) {
          var i :| 0 <= i < |keys| && keys[i] == k;
        }
      }
      false
  }

  /** How the distinct que job ids grow when one row is appended. */
  lemma QueJobIdsSnoc(keys: seq<JobKey>, k: JobKey, jobId: uint64)
    ensures QueJobIds(keys + [k], jobId)
         == QueJobIds(keys, jobId) + (if k.jobId == jobId && k.queJobId.Some? then {k.queJobId.value} else {})
  {
    var s := keys + [k];
    forall x | x in s ensures x in keys || x == k {
      var i :| 0 <= i < |s| && s[i] == x;
      if i < |keys| { assert keys[i] == x; }
    }
    forall x | x in keys ensures x in s {
      var i :| 0 <= i < |keys| && keys[i] == x;
      assert s[i] == x;
    }
    assert s[|keys|] == k;
  }

  function GetUniqueJobKeyCount(keys: seq<JobKey>, jobId: uint64, fault: DbFault): (r: Result<int, RepoError>)
    ensures fault.Fault? ==> r == Failure(DbError(fault.detail))
    ensures fault.NoFault? ==> r == Success(|QueJobIds(keys, jobId)|)
  {
    if fault.Fault? then Failure(DbError(fault.detail)) else Success(DistinctQueJobs(keys, jobId))
  }

  /** Appending a row whose que job id the job already has leaves the distinct count as it was. */
  lemma UniqueCountIgnoresReplay(keys: seq<JobKey>, k: JobKey)
    requires k.queJobId.Some? && k.queJobId.value in QueJobIds(keys, k.jobId)
    ensures |QueJobIds(keys + [k], k.jobId)| == |QueJobIds(keys, k.jobId)|
  {
    QueJobIdsSnoc(keys, k, k.jobId);
    assert QueJobIds(keys + [k], k.jobId) == QueJobIds(keys, k.jobId);
  }

  /** Appending a row with a que job id the job does not have yet adds one. */
  lemma UniqueCountCountsNewUnit(keys: seq<JobKey>, k: JobKey)
    requires k.queJobId.Some? && k.queJobId.value !in QueJobIds(keys, k.jobId)
    ensures |QueJobIds(keys + [k], k.jobId)| == |QueJobIds(keys, k.jobId)| + 1
  {
    QueJobIdsSnoc(keys, k, k.jobId);
  }

  /** Any appended rows only add to a job's distinct que job ids. */
  lemma {:induction false} QueJobIdsGrow(keys: seq<JobKey>, more: seq<JobKey>, jobId: uint64)
    ensures QueJobIds(keys, jobId) <= QueJobIds(keys + more, jobId)
    ensures |QueJobIds(keys, jobId)| <= |QueJobIds(keys + more, jobId)|
    decreases |more|
  {
    if more != [] {
      var init := more[..|more| - 1];
      assert keys + more == (keys + init) + [more[|more| - 1]];
      QueJobIdsGrow(keys, init, jobId);
      QueJobIdsSnoc(keys + init, more[|more| - 1], jobId);
    } else {
      assert keys + more == keys;
    }
    SubsetCardinality(QueJobIds(keys, jobId), QueJobIds(keys + more, jobId));
  }

  lemma SubsetCardinality<T>(a: set<T>, b: set<T>)
    requires a <= b
    ensures |a| <= |b|
  {
    assert b == a + (b - a);
  }

  /** The substring that marks an error file. */
  const ERROR_FILE_MARKER: string := "-error.ndjson"

  /** `s LIKE '%pat%'`, for a pattern without wildcard characters: `pat` occurs in `s`. */
  predicate Contains(s: string, pat: string)
    decreases |s|
  {
    |pat| <= |s| && (s[..|pat|] == pat || Contains(s[1..], pat))
  }

  /** `pat` occurs in `s` at position `i`. */
  ghost predicate OccursAt(s: string, pat: string, i: int) {
    0 <= i && i + |pat| <= |s| && s[i..i + |pat|] == pat
  }

  lemma {:induction false} ContainsIffOccurs(s: string, pat: string)
    ensures Contains(s, pat) <==> exists i :: OccursAt(s, pat, i)
    decreases |s|
  {
    if |pat| <= |s| {
      if s[..|pat|] == pat {
        assert OccursAt(s, pat, 0);
      } else {
        ContainsIffOccurs(s[1..], pat);
        if Contains(s[1..], pat) {
          var i :| OccursAt(s[1..], pat, i);
          assert s[i + 1..i + 1 + |pat|] == s[1..][i..i + |pat|];
          assert OccursAt(s, pat, i + 1);
        } else {
          forall i | OccursAt(s, pat, i) ensures false {
            if i > 0 {
              assert s[i..i + |pat|] == s[1..][i - 1..i - 1 + |pat|];
              assert OccursAt(s[1..], pat, i - 1);
            }
          }
        }
      }
    } else {
      forall i | OccursAt(s, pat, i) ensures false { }
    }
  }

  /** The row is counted by `GetJobKeyCount`: it belongs to the job and is not an error file. */
  predicate Counted(k: JobKey, jobId: uint64) {
    k.jobId == jobId && !Contains(k.fileName, ERROR_FILE_MARKER)
  }

  /** `COUNT(1) WHERE job_id = jobId AND file_name NOT LIKE '%-error.ndjson%'`. */
  function CountedRows(keys: seq<JobKey>, jobId: uint64): (n: nat)
    ensures n <= |keys|
    decreases |keys|
  {
    if keys == [] then 0
    else CountedRows(keys[..|keys| - 1], jobId) + (if Counted(keys[|keys| - 1], jobId) then 1 else 0)
  }

  /** The count is the number of positions holding a counted row, duplicates included. */
  lemma {:induction false} CountedRowsArePositions(keys: seq<JobKey>, jobId: uint64)
    ensures CountedRows(keys, jobId) == |set i | 0 <= i < |keys| && Counted(keys[i], jobId)|
    decreases |keys|
  {
    var counted := set i | 0 <= i < |keys| && Counted(keys[i], jobId);
    if keys != [] {
      var prefix := keys[..|keys| - 1];
      CountedRowsArePositions(prefix, jobId);
      var before := set i | 0 <= i < |prefix| && Counted(prefix[i], jobId);
      assert counted == before + (if Counted(keys[|keys| - 1], jobId) then {|prefix|} else {});
    } else {
      assert counted == {};
    }
  }

  function GetJobKeyCount(keys: seq<JobKey>, jobId: uint64, fault: DbFault): (r: Result<int, RepoError>)
    ensures fault.Fault? ==> r == Failure(DbError(fault.detail))
    ensures fault.NoFault? ==> r.Success? && 0 <= r.value <= |keys|
    ensures fault.NoFault? ==> r.value == |set i | 0 <= i < |keys| && Counted(keys[i], jobId)|
  {
    if fault.Fault? then Failure(DbError(fault.detail))
    else
      CountedRowsArePositions(keys, jobId);
      Success(CountedRows(keys, jobId))
  }

  /** Every appended row of the job that is not an error file counts, even one that repeats
      an earlier row; an error file does not. */
  lemma CountedRowsSnoc(keys: seq<JobKey>, k: JobKey, jobId: uint64)
    ensures CountedRows(keys + [k], jobId) == CountedRows(keys, jobId) + (if Counted(k, jobId) then 1 else 0)
  {
    assert (keys + [k])[..|keys + [k]| - 1] == keys;
  }

  // ---------------------------------------------------------------------------
  // inserts
  // ---------------------------------------------------------------------------

  /** The rows an insert appends: the given keys, in order, numbered from the next serial id. */
  function Stamped(keys: seq<JobKey>, next: nat): (rows: seq<JobKey>)
    ensures |rows| == |keys|
    ensures forall i :: 0 <= i < |keys| ==> rows[i] == keys[i].(id := next + i)
  {
    seq(|keys|, i requires 0 <= i < |keys| => keys[i].(id := next + i))
  }

  lemma SerialIdsAppend(keys: seq<JobKey>, next: nat, new_: seq<JobKey>)
    requires SerialIds(keys, next)
    ensures SerialIds(keys + Stamped(new_, next), next + |new_|)
  {
    var all := keys + Stamped(new_, next);
    forall i, j | 0 <= i < j < |all| ensures all[i].id < all[j].id {
      if j >= |keys| {
        assert all[j].id == next + (j - |keys|);
      }
    }
  }

  /** An update keeps every row's primary key. */
  lemma UpdatedKeepsKeys(jobs: JobTable, clauses: seq<Clause>, sets: seq<Assignment>, now: int)
    requires WellKeyed(jobs)
    ensures WellKeyed(Updated(jobs, clauses, sets, now))
  {
    forall id | id in jobs && Satisfies(jobs[id], clauses) ensures Assign(jobs[id], sets, now).id == id {
      AssignOnlyStatus(jobs[id], sets, now);
    }
  }

  /** The state of the scan once the rows in `visited` have been handled and those in
      `unvisited` have not: visited rows are updated, the others as they were, and `hit`
      holds the visited rows that the WHERE clause selects. */
  ghost predicate Scanned(before: JobTable, clauses: seq<Clause>, sets: seq<Assignment>, now: int,
                          unvisited: set<uint64>, visited: set<uint64>, table: JobTable, hit: set<uint64>)
  {
    && unvisited !! visited && unvisited + visited == before.Keys
    && table.Keys == before.Keys
    && (forall id :: id in table ==>
          table[id] == if id in visited then UpdatedRow(before[id], clauses, sets, now) else before[id])
    && hit == Matched(before, clauses) * visited
  }

  lemma ScanStep(before: JobTable, clauses: seq<Clause>, sets: seq<Assignment>, now: int,
                 unvisited: set<uint64>, visited: set<uint64>, table: JobTable, hit: set<uint64>, id: uint64)
    requires Scanned(before, clauses, sets, now, unvisited, visited, table, hit)
    requires id in unvisited
    ensures id in table && table[id] == before[id]
    ensures |if Satisfies(table[id], clauses) then hit + {id} else hit|
         == |hit| + if Satisfies(table[id], clauses) then 1 else 0
    ensures Scanned(before, clauses, sets, now, unvisited - {id}, visited + {id},
                    table[id := UpdatedRow(table[id], clauses, sets, now)],
                    if Satisfies(table[id], clauses) then hit + {id} else hit)
  {
    var selected := Satisfies(table[id], clauses);
    var unvisited', visited' := unvisited - {id}, visited + {id};
    var table' := table[id := UpdatedRow(table[id], clauses, sets, now)];
    var hit' := if selected then hit + {id} else hit;
    assert id !in hit;
    assert unvisited' !! visited' && unvisited' + visited' == before.Keys;
    assert table'.Keys == before.Keys;
    forall x | x in table'
      ensures table'[x] == if x in visited' then UpdatedRow(before[x], clauses, sets, now) else before[x]
    {
    }
    assert hit' == Matched(before, clauses) * visited' by {
      assert id in Matched(before, clauses) <==> selected;
    }
  }

  lemma ScanDone(before: JobTable, clauses: seq<Clause>, sets: seq<Assignment>, now: int,
                 visited: set<uint64>, table: JobTable, hit: set<uint64>)
    requires Scanned(before, clauses, sets, now, {}, visited, table, hit)
    ensures table == Updated(before, clauses, sets, now)
    ensures hit == Matched(before, clauses)
  {
    SameRowsSameTable(table, Updated(before, clauses, sets, now));
  }

  /** How the database executes an update: it visits every row once, in no particular
      order, assigns the rows the WHERE clause selects and counts them. */
  method ExecUpdate(before: JobTable, clauses: seq<Clause>, sets: seq<Assignment>, now: int)
    returns (table: JobTable, affected: nat)
    ensures table == Updated(before, clauses, sets, now)
    ensures affected == |Matched(before, clauses)|
  {
    table := before;
    var unvisited := before.Keys;
    affected := 0;
    ghost var visited: set<uint64> := {};
    ghost var hit: set<uint64> := {};
    while unvisited != {}
      invariant Scanned(before, clauses, sets, now, unvisited, visited, table, hit)
      invariant affected == |hit|
      decreases unvisited
    {
      var id :| id in unvisited;
      ScanStep(before, clauses, sets, now, unvisited, visited, table, hit, id);
      var row := table[id];
      var selected := Satisfies(row, clauses);
      table := table[id := UpdatedRow(row, clauses, sets, now)];
      affected := affected + if selected then 1 else 0;
      hit := if selected then hit + {id} else hit;
      unvisited := unvisited - {id};
      visited := visited + {id};
    }
    ScanDone(before, clauses, sets, now, visited, table, hit);
  }

  lemma SameRowsSameTable(a: JobTable, b: JobTable)
    requires a.Keys == b.Keys && forall id :: id in a ==> a[id] == b[id]
    ensures a == b
  {
  }

  // ---------------------------------------------------------------------------
  // the store
  // ---------------------------------------------------------------------------

  class Repository {
    var jobs: JobTable
    var jobKeys: seq<JobKey>
    /** The next value of the `job_keys.id` sequence. */
    var nextKeyId: nat

    ghost predicate Valid()
      reads this
    {
      WellKeyed(jobs) && SerialIds(jobKeys, nextKeyId)
    }

    constructor (jobs: JobTable)
      requires WellKeyed(jobs)
      ensures Valid()
      ensures this.jobs == jobs && jobKeys == [] && nextKeyId == 1
    {
      this.jobs := jobs;
      jobKeys := [];
      nextKeyId := 1;
    }

    /** `UPDATE jobs SET updated_at = NOW(), <sets> WHERE <clauses>`: the database visits
        every row, assigns the selected ones and counts them; no selected row is
        reported as `ErrJobNotUpdated`. */
    method UpdateJob(clauses: seq<Clause>, sets: seq<Assignment>, now: int, fault: DbFault)
      returns (err: Option<RepoError>)
      requires Valid()
      modifies this
      ensures Valid()
      ensures jobKeys == old(jobKeys) && nextKeyId == old(nextKeyId)
      ensures fault.Fault? ==> err == Some(DbError(fault.detail)) && unchanged(this)
      ensures fault.NoFault? ==> jobs == Updated(old(jobs), clauses, sets, now)
      ensures fault.NoFault? ==> err == (if Matched(old(jobs), clauses) == {} then Some(ErrJobNotUpdated) else None)
    {
      if fault.Fault? {
        return Some(DbError(fault.detail));
      }
      UpdatedKeepsKeys(jobs, clauses, sets, now);
      var table, affected := ExecUpdate(jobs, clauses, sets, now);
      jobs := table;
      err := if affected == 0 then Some(ErrJobNotUpdated) else None;
    }

    /** Sets the job's status whatever it was. */
    method UpdateJobStatus(jobId: uint64, new_: JobStatus, now: int, fault: DbFault)
      returns (err: Option<RepoError>)
      requires Valid()
      modifies this
      ensures Valid()
      ensures jobKeys == old(jobKeys) && nextKeyId == old(nextKeyId)
      ensures fault.Fault? ==> err == Some(DbError(fault.detail)) && unchanged(this)
      ensures fault.NoFault? ==> (err == Some(ErrJobNotUpdated) <==> jobId !in old(jobs))
      ensures fault.NoFault? ==> (err.Some? ==> err == Some(ErrJobNotUpdated))
      ensures fault.NoFault? ==> jobs == WithStatus(old(jobs), jobId, new_, now)
    {
      UpdateById(jobs, jobId, new_, now);
      err := UpdateJob([IdIs(jobId)], [SetStatus(new_)], now, fault);
    }

    /** The compare-and-set: sets the job's status to `new_` only while it is `current`. */
    method UpdateJobStatusCheckStatus(jobId: uint64, current: JobStatus, new_: JobStatus, now: int, fault: DbFault)
      returns (err: Option<RepoError>)
      requires Valid()
      modifies this
      ensures Valid()
      ensures jobKeys == old(jobKeys) && nextKeyId == old(nextKeyId)
      ensures fault.Fault? ==> err == Some(DbError(fault.detail)) && unchanged(this)
      ensures fault.NoFault? ==>
        (err == Some(ErrJobNotUpdated) <==> !(jobId in old(jobs) && old(jobs)[jobId].status == current))
      ensures fault.NoFault? ==> (err.Some? ==> err == Some(ErrJobNotUpdated))
      ensures fault.NoFault? && err.None? ==> jobs == WithStatus(old(jobs), jobId, new_, now)
      ensures fault.NoFault? && err.Some? ==> jobs == old(jobs)
    {
      UpdateByIdAndStatus(jobs, jobId, current, new_, now);
      err := UpdateJob([IdIs(jobId), StatusIs(current)], [SetStatus(new_)], now, fault);
    }

    /** Appends one row; the database assigns its id. */
    method CreateJobKey(key: JobKey, fault: DbFault) returns (err: Option<RepoError>)
      requires Valid()
      modifies this
      ensures Valid()
      ensures jobs == old(jobs)
      ensures fault.Fault? ==>
        err == Some(DbError(fault.detail)) && jobKeys == old(jobKeys) && nextKeyId == old(nextKeyId)
      ensures fault.NoFault? ==>
        err.None? && jobKeys == old(jobKeys) + [key.(id := old(nextKeyId))] && nextKeyId == old(nextKeyId) + 1
    {
      if fault.Fault? {
        return Some(DbError(fault.detail));
      }
      assert Stamped([key], nextKeyId) == [key.(id := nextKeyId)];
      SerialIdsAppend(jobKeys, nextKeyId, [key]);
      jobKeys := jobKeys + [key.(id := nextKeyId)];
      nextKeyId := nextKeyId + 1;
      err := None;
    }

    /** Appends one row per key, in slice order, as a single multi-row insert. An empty
        slice yields an insert without a VALUES list, which the database rejects. */
    method CreateJobKeys(keys: seq<JobKey>, fault: DbFault) returns (err: Option<RepoError>)
      requires Valid()
      modifies this
      ensures Valid()
      ensures jobs == old(jobs)
      ensures fault.Fault? || keys == [] ==> err.Some? && jobKeys == old(jobKeys) && nextKeyId == old(nextKeyId)
      ensures fault.Fault? ==> err == Some(DbError(fault.detail))
      ensures fault.NoFault? && keys != [] ==>
        err.None? && jobKeys == old(jobKeys) + Stamped(keys, old(nextKeyId)) && nextKeyId == old(nextKeyId) + |keys|
    {
      var rows: seq<JobKey> := [];
      var i := 0;
      while i < |keys|
        invariant 0 <= i <= |keys|
        invariant rows == Stamped(keys[..i], nextKeyId)
      {
        rows := rows + [keys[i].(id := nextKeyId + i)];
        i := i + 1;
      }
      assert keys[..i] == keys;
      if fault.Fault? {
        return Some(DbError(fault.detail));
      }
      if rows == [] {
        return Some(DbError("INSERT without a VALUES list"));
      }
      SerialIdsAppend(jobKeys, nextKeyId, keys);
      jobKeys := jobKeys + rows;
      nextKeyId := nextKeyId + |keys|;
      err := None;
    }
  }
}
