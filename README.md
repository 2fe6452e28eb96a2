# pdf-extractor: a verified model of the job tracker and the submission handler

The pdf-extractor service takes a PDF URL and a document id. It submits the
PDF to the PDF.co text conversion service and answers at once. A background
tracker then polls the conversion job, downloads the text, stores it as the
document row's `content` column (table `HOADocuments`), and triggers the
embedder service. When the tracker fails, or creating the job raises, a
`failed` write with an `extraction_error` reason is sent to the row. It takes
effect only if that write succeeds. The handler's other failures (missing
fields, a missing API key, a job without jobId or url) are only answered to
the caller and leave the row alone.

This Dafny project models the two pieces of decision logic in `app.py`:

* **The tracker** `background_wait_and_finalize` is modelled in `tracker.dfy`
  as the method `Tracker.BackgroundWaitAndFinalize`. It has the source's
  `while` loop, its `continue` after a failed poll and its early `return`s.
  The outside world is a finite script (`Tracker.World`), which gives:
  * the elapsed time read at each loop test;
  * the outcome of each status check (an exception, or the `status` field);
  * the outcome of the one result download;
  * what each of the two document writes returns.

  The method returns the ordered list of calls it makes (`Tracker.Event`).
  It is proved to produce exactly `Tracker.Run`, a description of the whole
  run in one piece, built from the first loop test that decides the run
  (`Tracker.FirstEnd`). The lifecycle, ending and embedder properties are
  lemmas about `Run` in `tracker_properties.dfy`.
* **The submission handler** `extract_text` is modelled in `submitter.dfy` as
  the function `Submitter.ExtractText`. It maps a request, whether the API
  key is configured, and the outcome of creating the job to four things:
  * the response code and JSON body;
  * the URL submitted for conversion;
  * the tracker started, with its arguments;
  * the document write made by the handler itself.

`payloads.dfy` holds the three PATCH payloads as a datatype, with the exact
dict each is sent as (`Payloads.ToDict`). It also holds the three failure
reason strings and the partial-update semantics of a write on a row.
`decimal.dfy` renders integers as Python's `str(int)` does, for the timeout
reason. `optional.dfy` holds an `Option` type.

Behaviours a reader might not expect:

* A terminal status of `failed` or `aborted` is reported as
  `pdfco_status_<status>`.
* Downloaded text is stored as a success even when it is empty. The text is
  never checked, and `TrackerProperties.SuccessEnds` holds
  for every text, `""` included.
* The poll interval is a fixed 10 seconds (`Tracker.PollInterval`).
* When creating the job raises, the handler itself marks the document as
  failed with the exception's message (`Submitter.CreateFailureMarksDocument`);
  such a request is not left untouched.

## Model

| member | source | states |
|---|---|---|
| Decimal.IntToString | app.py:126 | the rendering of `max_wait_seconds` is non-empty and starts with a digit exactly when the number is non-negative |
| Decimal.ParseIntToString | app.py:126 | rendering an integer can be read back to that integer |
| Decimal.IntToStringInjective | app.py:126 | distinct deadlines give distinct renderings |
| Payloads.Apply | app.py:28-29 | a write overwrites exactly the payload's keys and leaves every other column as it was |
| Payloads.PayloadsKeepConsistent | app.py:80-127 | every payload the tracker or handler sends leaves a row consistent (success carries content and no error, failure carries an error string); only the working payload is non-terminal, and it is the only one that sets `pdfco_job_id` |
| Payloads.ReasonsDistinct | app.py:99-127 | the status, download and timeout failure reasons can never be equal to one another |
| Payloads.ReasonsInjective | app.py:99-127 | each failure reason determines the status, message or deadline it was built from |
| Payloads.DefaultTimeoutReason | app.py:124-127 | with the default deadline the reason is exactly `timeout_after_1800s` |
| Tracker.FirstEndFrom | app.py:86-122 | the first loop test at or after `i` that either finds the deadline passed or is followed by a success, failed or aborted status; none before it does |
| Tracker.FirstEnd | app.py:86-122 | the loop test that decides the run; every earlier test found time left and drew a transient poll |
| Tracker.BackgroundWaitAndFinalize | app.py:75-127 | the loop makes exactly the calls of `Run`: the working write, one check-and-sleep round per transient poll, then the deciding branch |
| TrackerProperties.RoundsShape | app.py:86-93 | `n` transient polls are `2n` events, round `j` being a status check at position `2j` followed by a 10-second sleep; nothing else occurs, there are `n` checks and no writes |
| TrackerProperties.DecidedAt | app.py:86-122 | a loop test that ends the run after only transient polls is the deciding one |
| TrackerProperties.FirstEndPasses | app.py:86-122 | every loop test before the deciding one found time left and drew a transient poll |
| TrackerProperties.DecisionIgnoresWorkingAck | app.py:80-86 | what the working write returned changes neither which loop test decides the run nor anything the run does after it |
| TrackerProperties.RunIgnoresWorkingAck | app.py:80-86 | the first call is the working write `{pdfco_job_id, "working", None}`, and the rest of the run does not depend on what it returned |
| TrackerProperties.ExactlyOneTerminalWrite | app.py:80-127 | a run makes exactly two writes, both for `docId`: the working write, then exactly one terminal write |
| TrackerProperties.TerminalWriteIsLast | app.py:95-127 | the run ends with the terminal write, or with the embedder call right after it |
| TrackerProperties.TransientPollsContinue | app.py:87-93 | a raised poll, or a status other than success, failed or aborted, makes no write and is followed by a sleep and another loop test |
| TrackerProperties.TransientPollsInterchangeable | app.py:87-122 | replacing a raised poll with a non-terminal status, or the reverse, leaves the run unchanged |
| TrackerProperties.StatusFailureEnds | app.py:115-120 | status failed or aborted ends the run with the one write `pdfco_status_<status>`, with no download and no embedder call |
| TrackerProperties.FetchFailureEnds | app.py:96-103 | a success status whose download raised ends the run with the one write `fetch_result_failed: <msg>`, with no embedder call |
| TrackerProperties.FetchAttemptedOnce | app.py:95-113 | once a reached poll says success, the download is attempted exactly once, whether it returns text or raises: it is never retried |
| TrackerProperties.SuccessEnds | app.py:105-113 | a success status with downloaded text ends the run with the success write of that text, followed by the embedder call exactly when that write returned true |
| TrackerProperties.EmbedderCalledOnce | app.py:111-113 | after a success write the embedder is called once if the write returned true, and never otherwise |
| TrackerProperties.TimeoutEnds | app.py:124-127 | when the deadline is found passed before any terminal status, the run ends with the one write `timeout_after_<max>s` |
| TrackerProperties.TimeoutIff | app.py:86-127 | the terminal write is the timeout write if and only if some loop test found the deadline passed with only transient polls before it |
| TrackerProperties.EmbedsIff | app.py:95-113 | the embedder condition holds if and only if a reached poll said success, the download returned text and the success write returned true |
| TrackerProperties.EmbedderInRun | app.py:111-113 | the embedder call is in the trace exactly when the embedder condition holds |
| TrackerProperties.EmbedderIsLast | app.py:105-113 | after an acknowledged success write, the embedder call is the last call and the only one, directly after that write |
| TrackerProperties.EmbedderOnlyAfterAckedSuccess | app.py:95-113 | the embedder is called if and only if there was a success status, a successful download and an acknowledged success write; it is called at most once, last |
| TrackerProperties.PacedScriptCovers | app.py:86-122 | with readings from 0 s on and at least 10 s apart, a script with at least ceil(max/10) polls and one reading more always reaches the deciding test |
| TrackerProperties.CheckBudget | app.py:75-122 | with readings at least 10 s apart, a run makes at most ceil(max/10) status checks, which is 180 for the default deadline |
| TrackerProperties.StoredRecord | app.py:80-127 | the final row is the old row updated by the acknowledged writes in order; the terminal write never touches the job id; the row is consistent once either write returned true |
| Submitter.ExtractText | app.py:134-165 | every request is answered: 202 if and only if a tracker starts, with jobId and status "started" in the body; otherwise 400 or 500 with an error |
| Submitter.RejectsMissingFields | app.py:139-140 | 400 is returned if and only if pdfUrl or docId is missing or empty, with the fixed message and nothing submitted, started or written |
| Submitter.RejectsMissingApiKey | app.py:141-142 | valid fields without an API key give 500 `Server missing PDF_CO_API_KEY`, with no job created |
| Submitter.SubmitsOnlyValidRequests | app.py:139-145 | the conversion job is created, for the request's pdfUrl, if and only if both fields are present and non-empty and the key is set |
| Submitter.RejectsIncompleteJob | app.py:146-150 | a job response without a non-empty jobId and url gives 500 `PDF.co did not return jobId/url`, with no tracker and no write |
| Submitter.StartsOneTracker | app.py:149-158 | a tracker starts if and only if validation passed and the job has both a jobId and a url; it gets `(docId, jobId, url)`, and the body is `{docId, jobId, status: "started"}` |
| Submitter.CreateFailureMarksDocument | app.py:160-165 | the handler writes if and only if creating the job raised; the write marks the document failed with the message, and the response is 500 with that message |
| Submitter.StartedTrackerFollowsResponse | app.py:152-158 | the started tracker writes only to the request's docId, and its working write records the jobId returned to the caller |
| Submitter.ExampleRunStarts | app.py:134-158 | an example request (docId D1, pdfUrl https://x/y.pdf) whose job comes back as J1 with result https://res/J1 starts a tracker for `(D1, J1, https://res/J1)` |
| Submitter.ExampleRunTrace | app.py:75-113 | in that example run (job J1 polled "working" then "success", download "Hello world", both writes returning true) the tracker checks twice, sleeps once, downloads once, writes success, and calls the embedder last |
| Submitter.ExampleRunRow | app.py:80-113 | in that example run the row ends with content "Hello world", status success, no error and job id J1 |

## Left out

- Flask routing, CORS, `request.get_json`, `jsonify`, the `/` route and the startup block (app.py:1-9, 129-131, 167-169). A request is its two JSON fields, and a field that is missing or null is `None`. Flask answers some bodies before `extract_text` returns, and these are outside the model. A request whose content type is not JSON gets 415, and a malformed JSON body makes `request.get_json()` (app.py:135) raise BadRequest, which gives 400. A truthy JSON value that is not an object gets past `or {}`, and then `data.get` (app.py:136) raises, which gives Flask's own 500.
- Environment loading and `supabase_headers` (app.py:11-21). Whether the API key is set is a boolean input of `ExtractText`.
- The HTTP helpers `update_hoa_document`, `pdfco_create_job`, `pdfco_check_job`, `pdfco_fetch_result_text` and `trigger_embedder` (app.py:23-73). They are network I/O, so each becomes a scripted outcome: a write's boolean, a poll or download result or its exception, and the create-job result or its exception. The embedder call is an event, and its own errors are swallowed and only printed.
- An exception raised by `update_hoa_document` itself (such as a timeout of `requests.patch`) is not modelled. A write only returns true or false.
- `threading.Thread` and daemon threads (app.py:152-156). Starting the tracker is the `tracker` field of the response. The tracker's run is modelled separately, for the arguments that field carries.
- Submitter.ExtractText: the thread start is assumed to succeed. In the source `Thread(...).start()` sits inside the `try` (app.py:144-165), so a start that raises would write `Failed(msg)` and answer 500. The model answers 202 in that case.
- Real time and `time.sleep`. Elapsed time is a scripted sequence of readings, one per loop test, and a sleep is a `Sleep(10)` event. The lemmas do not need the readings to be non-decreasing. Only the budget lemmas assume they are paced 10 seconds apart.
- `print` logging.
- JSON values that are not strings. A `status`, `jobId` or `url` that is a number or another non-string is treated as missing or as a string. Python's truthiness of non-string values is not modelled.
- Tracker.BackgroundWaitAndFinalize: the script must cover the run (`Tracker.Covers`: some loop test decides it). A script is finite, so a run whose clock never reaches the deadline is not modelled. `TrackerProperties.PacedScriptCovers` shows that a paced script is covered when it has at least ceil(max/10) polls and one reading more than that. A shorter paced script need not be covered.
- Floating point: elapsed time is a Dafny `real`, so floating-point rounding in `time.time()` is not modelled.
