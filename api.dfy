/**
 * The HTTP handlers: the synchronous and the queued analysis of an upload,
 * polling one job, listing jobs a page at a time, and deleting a job. The
 * job table, the disk and the broker queue are passed in the way the
 * handlers receive their database session; the identifier and the clock
 * readings are parameters.
 */
module Api {
  import opened Wrappers
  import opened Text
  import opened Database
  import opened Files
  import opened Worker

  /** The query a request gets when it has none (split in two so that the
      verifier sees its first character). */
  const DefaultQuery := "Analyze" + " this financial document for investment insights"
  const DefaultDocumentPath := "data/sample.pdf"
  const PathDirective := "\n\nDocument file path: "
  const UploadPrefix := "data/financial_document_"
  const UploadSuffix := ".pdf"
  const QueuedMessage := "Analysis queued. Poll /jobs/{job_id} for results."

  /** The query `run_crew` hands to the crew: the user's query, a blank
      line, and a directive naming the document. Both parts can be read
      back from it. */
  function KickoffQuery(query: string, filePath: string): (r: string)
    ensures |r| == |query| + |PathDirective| + |filePath|
    ensures r[..|query|] == query
    ensures r[|query|..|query| + |PathDirective|] == PathDirective
    ensures r[|query| + |PathDirective|..] == filePath
  {
    var r := query + PathDirective + filePath;
    assert r[|query|..|query| + |PathDirective|] == PathDirective;
    r
  }

  /** `run_crew`: one run of the crew on the kickoff query. */
  function RunCrew(crew: string -> CrewOutcome, query: string, filePath: string := DefaultDocumentPath): CrewOutcome {
    crew(KickoffQuery(query, filePath))
  }

  /** The default query is not blank and is left alone by `strip`. */
  lemma DefaultQueryStripped()
    ensures !AllSpace(DefaultQuery)
    ensures Strip(DefaultQuery) == DefaultQuery
  {
    var d := DefaultQuery;
    assert d[0] == 'A' && d[|d| - 1] == 's';
    StripFixpoint(d);
  }

  /** The query after `if not query or not query.strip(): query = DEFAULT`:
      a missing, empty or all-whitespace query becomes the default, any
      other query is kept as it is, and what results is never blank. */
  function NormalisedQuery(query: Option<string>): (q: string)
    ensures query.None? || AllSpace(query.value) ==> q == DefaultQuery
    ensures query.Some? && !AllSpace(query.value) ==> q == query.value
    ensures Strip(q) != []
  {
    DefaultQueryStripped();
    if query.None? || query.value == "" || Strip(query.value) == "" then DefaultQuery else query.value
  }

  /** The query stored on the job row: the normalised query, stripped. It
      is never empty, neither starts nor ends with whitespace, and is the
      default when no usable query was given. */
  function StoredQuery(query: Option<string>): (q: string)
    ensures q != []
    ensures !IsSpace(q[0]) && !IsSpace(q[|q| - 1])
  {
    DefaultQueryStripped();
    Strip(NormalisedQuery(query))
  }

  /** A missing or blank query is stored as the default query itself. */
  lemma StoredQueryDefault(query: Option<string>)
    ensures query.None? || AllSpace(query.value) ==> StoredQuery(query) == DefaultQuery
  {
    DefaultQueryStripped();
  }

  /** Where an upload is stored: the job's id between a fixed directory
      prefix and the `.pdf` extension. */
  function UploadPath(fileId: string): (path: string)
    ensures |path| == |UploadPrefix| + |fileId| + |UploadSuffix|
    ensures StartsWith(path, UploadPrefix)
    ensures path[|path| - |UploadSuffix|..] == UploadSuffix
  {
    var path := UploadPrefix + fileId + UploadSuffix;
    assert path[|path| - |UploadSuffix|..] == UploadSuffix;
    path
  }

  /** The job id an upload path was made from, if it has that shape. */
  function UploadId(path: string): Option<string> {
    if |UploadPrefix| + |UploadSuffix| <= |path| && StartsWith(path, UploadPrefix)
       && path[|path| - |UploadSuffix|..] == UploadSuffix
    then Some(path[|UploadPrefix|..|path| - |UploadSuffix|])
    else None
  }

  /** The upload path gives back the job id, so two jobs never share an
      upload path. */
  lemma UploadPathRoundTrip(fileId: string)
    ensures UploadId(UploadPath(fileId)) == Some(fileId)
  {
    var p := UploadPath(fileId);
    assert p[..|UploadPrefix|] == UploadPrefix;
    assert p[|p| - |UploadSuffix|..] == UploadSuffix;
    assert p[|UploadPrefix|..|p| - |UploadSuffix|] == fileId;
  }

  lemma UploadPathInjective(a: string, b: string)
    ensures UploadPath(a) == UploadPath(b) ==> a == b
  {
    UploadPathRoundTrip(a);
    UploadPathRoundTrip(b);
  }

  datatype HttpError = HttpError(statusCode: int, detail: string)

  datatype SyncResponse = SyncResponse(status: string, jobId: string, query: string, analysis: string, fileProcessed: Option<string>)

  datatype AsyncResponse = AsyncResponse(status: string, jobId: string, message: string, pollUrl: string)

  /** What polling a job shows: every column but `error`. */
  datatype JobStatusView = JobStatusView(
    jobId: string, filename: Option<string>, query: string, status: Status,
    analysis: Option<string>, createdAt: int, completedAt: Option<int>)

  /** One entry of a job listing: every column but `result` and `error`. */
  datatype JobSummary = JobSummary(
    jobId: string, filename: Option<string>, query: string, status: Status,
    createdAt: int, completedAt: Option<int>)

  datatype JobPage = JobPage(total: nat, limit: nat, offset: nat, jobs: seq<JobSummary>)

  /** The 404 for an unknown id; its detail names the id. */
  function NotFound(jobId: string): (e: HttpError)
    ensures e.statusCode == 404
    ensures |e.detail| == |jobId| + 14
    ensures e.detail[..4] == "Job "
    ensures e.detail[4..|e.detail| - 10] == jobId
    ensures e.detail[|e.detail| - 10..] == " not found"
  {
    var e := HttpError(404, "Job " + jobId + " not found");
    assert e.detail[..4] == "Job ";
    assert e.detail[4..|e.detail| - 10] == jobId;
    assert e.detail[|e.detail| - 10..] == " not found";
    e
  }

  function StatusView(job: Job): JobStatusView {
    JobStatusView(job.id, job.filename, job.query, job.status, job.result, job.createdAt, job.completedAt)
  }

  function Summary(job: Job): JobSummary {
    JobSummary(job.id, job.filename, job.query, job.status, job.createdAt, job.completedAt)
  }

  /** Polling shows every column but `error`: two rows look the same
      exactly when they differ at most in their error. */
  lemma StatusViewHidesError(a: Job, b: Job)
    ensures StatusView(a) == StatusView(b) <==> a.(error := b.error) == b
  {
  }

  /** A list entry shows every column but `result` and `error`. */
  lemma SummaryHidesResultAndError(a: Job, b: Job)
    ensures Summary(a) == Summary(b) <==> a.(result := b.result, error := b.error) == b
  {
  }

  /** POST /analyze. The upload is written under its path, the crew runs
      on the stripped query with the path appended, and only on success is a
      completed row inserted under the same id. The response echoes the
      normalised query before stripping. Any fault of the crew becomes a 500
      and leaves the table as it was. Either way the upload is removed. */
  method AnalyzeDocumentSync(table: JobTable, disk: Disk, fileId: string, filename: Option<string>,
                             query: Option<string>, crew: string -> CrewOutcome, createdAt: int, completedAt: int)
    returns (response: Result<SyncResponse, HttpError>)
    requires table.Valid() && !HasId(table.rows, fileId)
    modifies table, disk
    ensures table.Valid()
    ensures disk.paths == old(disk.paths) - {UploadPath(fileId)}
    ensures var q := NormalisedQuery(query);
      match crew(KickoffQuery(StoredQuery(query), UploadPath(fileId)))
      case Finished(analysis) =>
        && response == Ok(SyncResponse("success", fileId, q, analysis, filename))
        && table.rows == old(table.rows)
             + [Job(fileId, filename, StoredQuery(query), Completed, Some(analysis), None, createdAt, Some(completedAt))]
      case Raised(message) =>
        && response == Err(HttpError(500, "Error processing financial document: " + message))
        && table.rows == old(table.rows)
  {
    var filePath := UploadPath(fileId);
    disk.Write(filePath);
    var q := NormalisedQuery(query);
    var outcome := RunCrew(crew, Strip(q), filePath);
    match outcome {
      case Finished(analysis) =>
        table.Add(Job(fileId, filename, Strip(q), Completed, Some(analysis), None, createdAt, Some(completedAt)));
        response := Ok(SyncResponse("success", fileId, q, analysis, filename));
      case Raised(message) =>
        response := Err(HttpError(500, "Error processing financial document: " + message));
    }
    disk.RemoveIfExists(filePath);
  }

  /** POST /analyze/async. The upload is written under its path, a pending
      row is inserted, and then a task with the id, the stripped query and
      the path is queued under the same id. The upload stays on disk for the
      worker. */
  method AnalyzeDocumentAsync(table: JobTable, disk: Disk, queue: TaskQueue, fileId: string,
                              filename: Option<string>, query: Option<string>, createdAt: int)
    returns (response: AsyncResponse)
    requires table.Valid() && !HasId(table.rows, fileId)
    modifies table, disk, queue
    ensures table.Valid()
    ensures table.rows == old(table.rows) + [Job(fileId, filename, StoredQuery(query), Pending, None, None, createdAt, None)]
    ensures disk.paths == old(disk.paths) + {UploadPath(fileId)}
    ensures queue.pending == old(queue.pending) + [TaskRequest(fileId, [fileId, StoredQuery(query), UploadPath(fileId)])]
    ensures response == AsyncResponse("queued", fileId, QueuedMessage, "/jobs/" + fileId)
  {
    var filePath := UploadPath(fileId);
    disk.Write(filePath);
    var q := NormalisedQuery(query);
    table.Add(Job(fileId, filename, Strip(q), Pending, None, None, createdAt, None));
    queue.ApplyAsync([fileId, Strip(q), filePath], fileId);
    response := AsyncResponse("queued", fileId, QueuedMessage, "/jobs/" + fileId);
  }

  /** GET /jobs/{job_id}: 404 exactly when no row has the id, otherwise the
      columns of that row. */
  function GetJobStatus(table: JobTable, jobId: string): (r: Result<JobStatusView, HttpError>)
    reads table
    ensures r.Err? <==> !HasId(table.rows, jobId)
    ensures r.Err? ==> r.error == NotFound(jobId)
    ensures r.Ok? ==> exists k :: 0 <= k < |table.rows| && table.rows[k].id == jobId && r.value == StatusView(table.rows[k])
  {
    match IndexOf(table.rows, jobId)
    case None => Err(NotFound(jobId))
    case Some(i) => Ok(StatusView(table.rows[i]))
  }

  /** GET /jobs: the rows newest first, skipping `offset` of them and
      keeping at most `limit`; `total` counts every row whatever the
      window. */
  function ListJobs(table: JobTable, limit: nat := 20, offset: nat := 0): (r: JobPage)
    reads table
    ensures r.total == |table.rows| && r.limit == limit && r.offset == offset
    ensures |r.jobs| == if offset >= |table.rows| then 0 else Min(limit, |table.rows| - offset)
    ensures forall i, j :: 0 <= i < j < |r.jobs| ==> r.jobs[i].createdAt >= r.jobs[j].createdAt
    ensures forall k :: 0 <= k < |r.jobs| ==> r.jobs[k] == Summary(OrderByCreatedDesc(table.rows)[offset + k])
  {
    var n := |table.rows|;
    var ordered := OrderByCreatedDesc(table.rows);
    if offset >= n then JobPage(n, limit, offset, [])
    else
      var window := ordered[offset..offset + Min(limit, n - offset)];
      WindowNewestFirst(ordered, offset, offset + |window|);
      assert forall k :: 0 <= k < |window| ==> window[k] == ordered[offset + k];
      JobPage(n, limit, offset, seq(|window|, k requires 0 <= k < |window| => Summary(window[k])))
  }

  /** Every entry of a page summarises a row of the table. */
  lemma ListedJobsAreRows(table: JobTable, limit: nat, offset: nat)
    ensures forall k :: 0 <= k < |ListJobs(table, limit, offset).jobs| ==>
      exists m :: 0 <= m < |table.rows| && ListJobs(table, limit, offset).jobs[k] == Summary(table.rows[m])
  {
    var jobs := ListJobs(table, limit, offset).jobs;
    OrderedRowsFromTable(table.rows);
    forall k | 0 <= k < |jobs|
      ensures exists m :: 0 <= m < |table.rows| && jobs[k] == Summary(table.rows[m])
    {
      var job := OrderByCreatedDesc(table.rows)[offset + k];
      var m :| 0 <= m < |table.rows| && table.rows[m] == job;
    }
  }

  /** DELETE /jobs/{job_id}: 404 with the table untouched when no row has
      the id; otherwise exactly that row is removed, the others keep their
      order, and polling the id afterwards gives 404. */
  method DeleteJob(table: JobTable, jobId: string) returns (response: Result<string, HttpError>)
    requires table.Valid()
    modifies table
    ensures table.Valid()
    ensures !HasId(old(table.rows), jobId) ==> response == Err(NotFound(jobId)) && table.rows == old(table.rows)
    ensures HasId(old(table.rows), jobId) ==>
      var i := IndexOf(old(table.rows), jobId).value;
      && response == Ok("Job " + jobId + " deleted successfully")
      && table.rows == old(table.rows)[..i] + old(table.rows)[i + 1..]
    ensures GetJobStatus(table, jobId) == Err(NotFound(jobId))
  {
    var found := IndexOf(table.rows, jobId);
    if found.None? {
      response := Err(NotFound(jobId));
    } else {
      table.Remove(found.value);
      response := Ok("Job " + jobId + " deleted successfully");
    }
  }

  /** A queued submission picked up by the worker: the row goes from pending
      to completed or failed, the upload is removed, and the crew is run on
      the stored query without the document path. */
  method SubmitAndProcess(table: JobTable, disk: Disk, queue: TaskQueue, fileId: string,
                          filename: Option<string>, query: Option<string>, crew: string -> CrewOutcome,
                          createdAt: int, now: int)
    returns (result: TaskResult)
    requires table.Valid() && !HasId(table.rows, fileId)
    modifies table, disk, queue
    ensures table.Valid()
    ensures UploadPath(fileId) !in disk.paths
    ensures GetJobStatus(table, fileId).Ok?
    ensures GetJobStatus(table, fileId).value.status == if crew(StoredQuery(query)).Finished? then Completed else Failed
    ensures crew(StoredQuery(query)).Finished? ==> GetJobStatus(table, fileId).value.analysis == Some(crew(StoredQuery(query)).text)
  {
    var _ := AnalyzeDocumentAsync(table, disk, queue, fileId, filename, query, createdAt);
    var request := queue.pending[|queue.pending| - 1];
    var i := |table.rows| - 1;
    IndexOfUnique(table.rows, fileId, i);
    ghost var writes;
    result, writes := RunCrewTask(table, disk, request.args[0], request.args[1], request.args[2], crew, now, 0);
    IndexOfUnique(table.rows, fileId, i);
  }
}
