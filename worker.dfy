/**
 * The queue worker task `run_crew_task`: it marks the job processing, runs
 * the crew, records the outcome on the job's row, asks for a retry with an
 * exponentially growing countdown when the crew raised, and always removes
 * the uploaded file. The crew itself is an oracle: a function from the
 * kickoff query to either the final text or the text of the exception.
 */
module Worker {
  import opened Wrappers
  import opened Database
  import opened Files

  /** What one run of the crew yields. */
  datatype CrewOutcome = Finished(text: string) | Raised(message: string)

  /** The retry budget and base delay the task is declared with. */
  const MaxRetries := 3
  const DefaultRetryDelay := 30

  function Pow2(n: nat): (r: nat)
    ensures r >= 1
  {
    if n == 0 then 1 else 2 * Pow2(n - 1)
  }

  /** The countdown passed to `self.retry` after `retries` earlier retries:
      `2 ** retries * 30`. */
  function RetryCountdown(retries: nat): (r: nat)
    ensures r >= DefaultRetryDelay
    ensures r % DefaultRetryDelay == 0
  {
    Pow2(retries) * DefaultRetryDelay
  }

  /** Exponential backoff stated step by step: the first retry waits the
      default delay and each later one twice as long as the one before. */
  function Backoff(retries: nat): nat {
    if retries == 0 then DefaultRetryDelay else 2 * Backoff(retries - 1)
  }

  lemma {:induction false} CountdownIsBackoff(retries: nat)
    ensures RetryCountdown(retries) == Backoff(retries)
  {
    if retries > 0 {
      CountdownIsBackoff(retries - 1);
      assert Pow2(retries) * DefaultRetryDelay == 2 * (Pow2(retries - 1) * DefaultRetryDelay);
    }
  }

  /** Within the declared budget the countdowns are 30, 60 and 120. */
  lemma RetrySchedule()
    ensures seq(MaxRetries, k requires 0 <= k => RetryCountdown(k)) == [30, 60, 120]
  {
    CountdownIsBackoff(0);
    CountdownIsBackoff(1);
    CountdownIsBackoff(2);
  }

  /** The terminal write for a loaded row: on success the status becomes
      completed and the result is stored, on failure the status becomes
      failed and the exception text is stored; both stamp `completedAt`.
      The other of `result` and `error` keeps whatever it held. */
  function Settle(job: Job, outcome: CrewOutcome, now: int): (r: Job)
    ensures r.status == (if outcome.Finished? then Completed else Failed)
    ensures r.completedAt == Some(now)
    ensures outcome.Finished? ==> r.result == Some(outcome.text) && r.error == job.error
    ensures outcome.Raised? ==> r.error == Some(outcome.message) && r.result == job.result
    ensures r.id == job.id && r.filename == job.filename && r.query == job.query && r.createdAt == job.createdAt
  {
    match outcome
    case Finished(text) => job.(status := Completed, result := Some(text), completedAt := Some(now))
    case Raised(message) => job.(status := Failed, error := Some(message), completedAt := Some(now))
  }

  /** A message on the broker: the task id and the positional arguments. */
  datatype TaskRequest = TaskRequest(taskId: string, args: seq<string>)

  /** The broker queue that `run_crew_task.apply_async` appends to. */
  class TaskQueue {
    var pending: seq<TaskRequest>

    constructor ()
      ensures pending == []
    {
      pending := [];
    }

    method ApplyAsync(args: seq<string>, taskId: string)
      modifies this
      ensures pending == old(pending) + [TaskRequest(taskId, args)]
    {
      pending := pending + [TaskRequest(taskId, args)];
    }
  }

  /** How one run of the task ends: the dictionary it returns, or the retry
      request that `self.retry` raises. */
  datatype TaskResult =
    | TaskReturned(jobId: string, status: string)
    | RetryRaised(countdown: nat, error: string)

  /** One run of `run_crew_task(job_id, query, file_path)` after `retries`
      earlier retries. When the row exists it is written twice, first with
      status processing and then with the terminal outcome; when it does not
      exist nothing is written, yet success is still reported. No other row
      changes, and the uploaded file is gone afterwards. The crew is given
      the bare query. */
  method RunCrewTask(table: JobTable, disk: Disk, jobId: string, query: string, filePath: string,
                     crew: string -> CrewOutcome, now: int, retries: nat)
    returns (result: TaskResult, ghost writes: seq<Status>)
    requires table.Valid()
    modifies table, disk
    ensures table.Valid()
    ensures disk.paths == old(disk.paths) - {filePath}
    ensures !HasId(old(table.rows), jobId) ==> table.rows == old(table.rows) && writes == []
    ensures HasId(old(table.rows), jobId) ==>
      var i := IndexOf(old(table.rows), jobId).value;
      && table.rows == old(table.rows)[i := Settle(old(table.rows)[i], crew(query), now)]
      && writes == [Processing, Settle(old(table.rows)[i], crew(query), now).status]
    ensures crew(query).Finished? ==> result == TaskReturned(jobId, StatusName(Completed))
    ensures crew(query).Raised? ==> result == RetryRaised(RetryCountdown(retries), crew(query).message)
  {
    writes := [];
    var found := IndexOf(table.rows, jobId);
    if found.Some? {
      table.Put(found.value, table.rows[found.value].(status := Processing));
      writes := writes + [Processing];
    }
    var outcome := crew(query);
    match outcome {
      case Finished(text) =>
        if found.Some? {
          var job := table.rows[found.value];
          table.Put(found.value, job.(status := Completed, result := Some(text), completedAt := Some(now)));
          writes := writes + [Completed];
        }
        result := TaskReturned(jobId, StatusName(Completed));
      case Raised(message) =>
        // the failure path loads the row again
        var again := IndexOf(table.rows, jobId);
        if found.Some? {
          IndexOfUnique(table.rows, jobId, found.value);
        }
        if again.Some? {
          var job := table.rows[again.value];
          table.Put(again.value, job.(status := Failed, error := Some(message), completedAt := Some(now)));
          writes := writes + [Failed];
        }
        result := RetryRaised(RetryCountdown(retries), message);
    }
    disk.RemoveIfExists(filePath);
  }

  /** A run that raises followed by a retry that succeeds: the row ends
      completed with the result, but the error of the first attempt is still
      on it, so a completed row can carry an error. */
  method FailThenComplete(table: JobTable, disk: Disk, jobId: string, query: string, filePath: string,
                          first: string -> CrewOutcome, second: string -> CrewOutcome, t1: int, t2: int)
    requires table.Valid() && HasId(table.rows, jobId)
    requires first(query).Raised? && second(query).Finished?
    modifies table, disk
    ensures table.Get(jobId).Some?
    ensures table.Get(jobId).value.status == Completed
    ensures table.Get(jobId).value.result == Some(second(query).text)
    ensures table.Get(jobId).value.error == Some(first(query).message)
    ensures table.Get(jobId).value.completedAt == Some(t2)
  {
    var i := IndexOf(table.rows, jobId).value;
    var r1, w1 := RunCrewTask(table, disk, jobId, query, filePath, first, t1, 0);
    assert table.rows[i].id == jobId;
    IndexOfUnique(table.rows, jobId, i);
    var r2, w2 := RunCrewTask(table, disk, jobId, query, filePath, second, t2, 1);
    IndexOfUnique(table.rows, jobId, i);
  }
}
