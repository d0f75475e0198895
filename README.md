# Financial Document Analyzer — a verified model of its core

The Financial Document Analyzer is a web service. A user uploads a PDF with a
question. A crew of language-model agents reads the document and answers, and
the answer is stored as a row of a job table. This project models the logic
the repository itself writes around those agents:

- **The crew tools** (`tools.py`). The document reader collapses blank lines
  page by page and joins the pages. The investment tool deletes double spaces
  and reports the cleaned length. The risk tool reports the raw length. Both
  cleanup loops are proved equal to one reference definition, `Squeeze`,
  which shrinks every run of one character to a single copy. The properties
  of `Squeeze` are proved once: no pair is left, only that character is
  removed, every run becomes exactly one, and squeezing twice changes nothing.
- **The queue worker** (`worker.py`). `run_crew_task` marks the job
  processing, runs the crew, and writes the outcome to the row. When the crew
  raises, it asks for a retry after `2^retries * 30` seconds. It always
  removes the upload.
- **The HTTP handlers** (`main.py`). The synchronous and the queued analysis
  of an upload, query defaulting and stripping, upload paths, the crew's
  kickoff string, polling a job, listing jobs a page at a time, and deleting
  a job.

State that the source changes in place is modelled as classes:

- `Database.JobTable` is the job table, a sequence of `Job` rows in
  insertion order. Its invariant is the primary key.
- `Files.Disk` is the set of paths that exist on disk.
- `Worker.TaskQueue` is the broker queue.

The crew is an oracle, a function from the kickoff query to either the final
text or the text of an exception. Identifiers and clock readings are
parameters. Python's `str.strip`, `str.isspace`, `in` and `str.replace`, and
the way an f-string renders a count, are modelled in `Text`.

Files:

- `wrappers.dfy`: `Option` and `Result`.
- `text.dfy`: Python string semantics.
- `tools.dfy`: the three tools.
- `files.dfy`: the disk.
- `database.dfy`: the `AnalysisJob` record, the table and the listing order.
- `worker.dfy`: the worker task and the queue.
- `api.dfy`: the handlers.

### Where the record's stated intent and the code differ

The model follows the code in each case.

- The column comments at database.py:33-34 describe `result` as the full
  analysis text and `error` as the message of a failed run. The worker
  (worker.py:77-92) never clears `error` on success and never clears
  `result` on failure. So after a failed run and a successful retry, a
  completed row still carries the old error. `Worker.FailThenComplete` proves
  this scenario.
- The synchronous path gives the crew the query with the document path
  appended. The queued worker gives it the bare query. The model keeps that
  difference: `Api.SubmitAndProcess` states that the crew runs on the stored
  query alone.
- The synchronous response echoes the normalised query before stripping. The
  row stores it stripped.

## Model

| member | source | states |
|---|---|---|
| Text.Strip | main.py:125-128 | `strip` gives the empty string exactly when the input is all whitespace (Python's full whitespace set); otherwise the result neither starts nor ends with whitespace, and it is never longer |
| Text.IsSpaceRanges | main.py:125 | a character counts as whitespace for `strip` exactly when it is one of Python's whitespace code points: tab to carriage return, the four separators 0x1C-0x1F, space, 0x85, the no-break space and the Unicode space separators |
| Text.StripSlice | main.py:128 | what `strip` keeps is one contiguous stretch of the input with only whitespace on either side of it |
| Text.StripFixpoint | main.py:134 | `strip` leaves a string alone exactly when it is empty or neither starts nor ends with whitespace |
| Text.StripIdempotent | main.py:134 | stripping an already stripped query changes nothing |
| Text.Replace | tools.py:41 | `str.replace` with a non-empty pattern: without an occurrence the string is unchanged; a shorter replacement never lengthens it and strictly shortens it when there is an occurrence (why the newline loop terminates) |
| Text.Contains | tools.py:40 | the `in` test can only hold when the pattern is no longer than the string |
| Text.ContainsAt | tools.py:40 | the `in` test holds exactly when the pattern occurs at some index of the string |
| Text.DecimalString | tools.py:67 | an f-string renders a count as decimal digits, without a leading zero, and zero as `0` |
| Text.DecimalRoundTrip | tools.py:67 | reading the rendered digits back gives the count |
| Text.CountRoundTrip | tools.py:67 | the count can be read back from a message of the form prefix, count, suffix |
| Tools.Squeeze | tools.py:40-41 | shrinking every run of a character never lengthens a string and keeps its first character |
| Tools.SqueezeNoRepeat | tools.py:40-41 | after squeezing, no two neighbouring characters are both that character |
| Tools.SqueezeFixpoint | tools.py:60-65 | a string is unchanged by squeezing exactly when it has no repeated pair |
| Tools.SqueezeIdempotent | tools.py:40-41 | running either cleanup again on its own output changes nothing |
| Tools.SqueezeOnlyDeletes | tools.py:60-65 | only copies of the squeezed character are removed: with that character deleted, input and output are equal |
| Tools.SqueezeAppend | tools.py:40-41 | two pieces that do not meet in a pair are cleaned independently |
| Tools.SqueezeRunPrefix | tools.py:40-41 | a leading non-empty run becomes a single character |
| Tools.SqueezeCollapsesRun | tools.py:40-41 | every maximal non-empty run of newlines (or spaces) becomes exactly one, and the text on either side is cleaned on its own |
| Tools.SqueezeDropOne | tools.py:62-63 | deleting one character of a pair does not change the cleaned form (the double-space loop's step) |
| Tools.ContainsPair | tools.py:40 | `"\n\n" in s` (or `"  " in s`) holds exactly when some neighbouring pair is that character twice |
| Tools.SqueezeReplacePair | tools.py:41 | one pass of `replace("\n\n", "\n")` does not change the cleaned form |
| Tools.CleanPage | tools.py:37-41 | the newline loop terminates with the page's runs of newlines shrunk to one and no `"\n\n"` left |
| Tools.PageLine | tools.py:43 | what the reader emits for a page ends with a newline |
| Tools.Report | tools.py:34-45 | the reader's output is empty exactly when there are no pages, and otherwise ends with a newline |
| Tools.ReadData | tools.py:34-45 | the reader's loop returns each cleaned page followed by one newline, in page order |
| Tools.ReportAppend | tools.py:35-43 | the report of two batches of pages is the two reports joined |
| Tools.ReportKeepsText | tools.py:34-45 | the reader adds and removes only newlines: without newlines, the report is the pages' text in order |
| Tools.RemoveDoubleSpaces | tools.py:57-65 | the index-driven loop terminates with every run of spaces shrunk to one and no `"  "` left |
| Tools.AnalyzeInvestment | tools.py:54-67 | the investment tool's message is its fixed text around the decimal rendering, without leading zeros, of the length of the data with every run of spaces shrunk to one; that length reads back from the message |
| Tools.RiskAssessment | tools.py:76-78 | the risk tool's message carries the length of the raw data |
| Files.Disk.Write | main.py:119-121 | after writing an upload its path exists, and nothing else changes |
| Files.Disk.RemoveIfExists | worker.py:97-104 | after the cleanup the path does not exist, whether or not it did, and no other path changes |
| Database.StatusName | database.py:32 | each of the four status values fits the 20-character status column |
| Database.IndexOf | main.py:220 | the lookup by id finds the first row with that id, and finds nothing exactly when no row has it |
| Database.IndexOfUnique | database.py:29 | under the primary key, the row found is the only row with that id |
| Database.ConsNewestFirst | main.py:244 | a row no older than the head of a newest-first listing can go in front of it |
| Database.InsertNewestFirst | main.py:244 | inserting a row into a newest-first listing keeps it newest first and adds exactly that row |
| Database.OrderByCreatedDesc | main.py:244 | the listing order is newest first and holds every row exactly once |
| Database.WindowNewestFirst | main.py:244-247 | a window of a newest-first listing is newest first |
| Database.OrderedRowsFromTable | main.py:242-248 | every row of the listing is a row of the table |
| Database.JobTable.constructor | database.py:42-44 | a new table is empty and satisfies the primary key |
| Database.JobTable.Get | main.py:220 | the lookup by id returns a row with that id, and returns nothing exactly when no row has it |
| Database.JobTable.Add | main.py:140-141 | inserting a row with a fresh id appends it and keeps the primary key |
| Database.JobTable.Put | worker.py:62-64 | committing new values for a loaded row changes that row only and keeps the primary key |
| Database.JobTable.Remove | main.py:275-276 | deleting a row removes it, keeps the others in order, and its id is gone |
| Worker.RetryCountdown | worker.py:95 | the countdown is at least the default delay of 30 seconds and a multiple of it |
| Worker.CountdownIsBackoff | worker.py:95 | the countdown `2^retries * 30` is 30 at first and doubles with each retry |
| Worker.RetrySchedule | worker.py:38-39 | within the budget of three retries the countdowns are 30, 60 and 120 seconds |
| Worker.Settle | worker.py:77-92 | success sets completed and the result, failure sets failed and the error; both stamp completed_at; the other of result and error is left as it was, and the key, filename, query and created_at never change |
| Worker.TaskQueue.constructor | worker.py:16-20 | the broker queue starts empty |
| Worker.TaskQueue.ApplyAsync | main.py:202-205 | dispatching appends one message with the task id and the arguments |
| Worker.RunCrewTask | worker.py:41-104 | an existing row is written processing and then completed or failed, and no other row changes; a missing row is never created, yet success is still reported; a crash asks for a retry after `2^retries * 30` seconds; the upload is gone on every path |
| Worker.FailThenComplete | worker.py:77-92 | a failed run followed by a successful retry leaves a completed row that still carries the first error |
| Api.KickoffQuery | main.py:58 | the crew's input is the query, a blank line with the path directive, and the path, and each part can be read back |
| Api.DefaultQueryStripped | main.py:126 | the default query is not blank and is left alone by `strip` |
| Api.NormalisedQuery | main.py:125-126 | a missing, empty or all-whitespace query becomes the default, any other is kept, and the result is never blank |
| Api.StoredQuery | main.py:134 | the stored query is never empty and neither starts nor ends with whitespace |
| Api.StoredQueryDefault | main.py:185-192 | a missing or blank query is stored as the default query |
| Api.UploadPath | main.py:113-114 | the upload path is `data/financial_document_`, then the id, then `.pdf`, and is exactly as long as those three parts |
| Api.UploadPathRoundTrip | main.py:113-114 | the job id can be read back from its upload path |
| Api.UploadPathInjective | main.py:176-177 | two different jobs never share an upload path |
| Api.AnalyzeDocumentSync | main.py:104-161 | on success exactly one completed row with the crew's answer is added under the upload's id and the response echoes the unstripped query; on a crash the answer is a 500 with the error text and no row is added; the upload is removed either way |
| Api.AnalyzeDocumentAsync | main.py:166-212 | one pending row without result or completion time is added, the upload stays on disk, one task with the id, the stored query and the path is queued under that id, and the response is queued with the poll URL |
| Api.GetJobStatus | main.py:217-232 | polling fails with 404 exactly when no row has the id, and otherwise shows that row |
| Api.NotFound | main.py:221-222 | an unknown id gives status 404 with a detail that names exactly that id between `Job ` and ` not found` |
| Api.StatusViewHidesError | main.py:224-232 | the polling view shows every column of the row except `error`: two rows give the same view exactly when they differ at most in their error |
| Api.SummaryHidesResultAndError | main.py:256-263 | a list entry shows every column except `result` and `error`: two rows give the same entry exactly when they differ at most in those two |
| Api.ListJobs | main.py:235-266 | a page holds at most `limit` entries starting at `offset` of the newest-first listing, newest first, and `total` counts all rows whatever the window |
| Api.ListedJobsAreRows | main.py:242-264 | every entry of a page summarises a row of the table |
| Api.DeleteJob | main.py:269-277 | deleting fails with 404 exactly when the id is absent; otherwise exactly that row goes, the others keep their order, and polling the id afterwards gives 404 |
| Api.SubmitAndProcess | main.py:189-205 | a queued submission processed by the worker ends completed with the crew's answer or failed, the upload is removed, and the crew is run on the stored query without the path |

## Left out

- Reading the PDF (PyPDFLoader) and the web search tool (SerperDevTool) are foreign libraries. The reader takes the pages as a sequence of strings.
- The crew's kickoff (agents, tasks, language models) is an oracle. agents.py and task.py hold only configuration and prompt text for it.
- Celery's internals are not modelled: the broker, late acknowledgement, redelivery, and what `self.retry` does once the three retries are spent. Only the countdown value and the row writes are modelled.
- The database session's opening and closing, and SQLAlchemy and FastAPI plumbing (routing, CORS, the HTML root page) are not modelled.
- Failures of the storage layer itself are not modelled: a failing commit, a failing file write, or an exception other than the crew's.
- Removal errors swallowed by the `finally` blocks are not modelled. `Files.Disk.RemoveIfExists` always succeeds.
- `uuid4()` and `utcnow()` are parameters.
- Api.AnalyzeDocumentSync: requires an id no row has yet. The source relies on random UUIDs and would fail on a primary-key collision.
- Api.AnalyzeDocumentAsync: requires an id no row has yet, for the same reason.
- Api.SubmitAndProcess: requires an id no row has yet, for the same reason.
- Timestamps are integers on one clock. The `isoformat()` rendering in the responses is not modelled.
- Api.ListJobs: takes `limit` and `offset` as natural numbers, with the defaults 20 and 0; the negative values a query string could carry are not modelled.
- Database.OrderByCreatedDesc: SQL leaves the order of rows with equal `created_at` unspecified. The model keeps table order among them.
- The 36- and 255-character limits on the id and filename columns are not enforced.
- Api.RunCrew has no contract of its own; its effect is stated through Api.KickoffQuery and Api.AnalyzeDocumentSync.
