/**
 * The submission handler `extract_text` (app.py:133-165): validate the
 * request, create the conversion job, and hand it to a tracker.
 *
 * It is one decision on its inputs: the two request fields, whether the
 * API key is configured, and what creating the job produced. Its effects
 * are returned as values: the response, the URL submitted for conversion,
 * the tracker started and the document write made.
 */
module Submitter {
  import opened Optional
  import opened Payloads
  import opened Tracker
  import TrackerProperties

  /** The JSON body's `pdfUrl` and `docId`; `None` when absent or null. */
  datatype Request = Request(pdfUrl: Option<string>, docId: Option<string>)

  /** What `pdfco_create_job` produced: the response's `jobId` and `url`, or the exception it raised. */
  datatype CreateJob = Created(jobId: Option<string>, url: Option<string>) | CreateRaised(msg: string)

  /** The arguments of the background tracker thread. */
  datatype TrackerArgs = TrackerArgs(docId: string, jobId: string, resultUrl: string)

  /** One call of `update_hoa_document`. */
  datatype DocWrite = DocWrite(docId: string, payload: Payload)

  datatype Handled = Handled(
    code: nat,                      // HTTP status of the response
    body: map<string, string>,      // its JSON object
    submitted: Option<string>,      // the URL passed to pdfco_create_job, if it was called
    tracker: Option<TrackerArgs>,   // the tracker thread started, if any
    write: Option<DocWrite>)        // the document write made, if any

  /** Python truthiness of an optional string: present and non-empty. */
  predicate Truthy(v: Option<string>) { v.Some? && v.value != "" }

  const MissingFieldsError := "pdfUrl and docId are required"
  const MissingKeyError := "Server missing PDF_CO_API_KEY"
  const IncompleteJobError := "PDF.co did not return jobId/url"

  function ErrorResponse(code: nat, msg: string): Handled
  {
    Handled(code, map["error" := msg], None, None, None)
  }

  /**
   * `extract_text`. `apiKeySet` says whether PDF_CO_API_KEY is set and
   * non-empty. Every request is answered: either 202 with a started
   * tracker, or 400/500 with an error message and no tracker.
   */
  function ExtractText(req: Request, apiKeySet: bool, create: CreateJob): (h: Handled)
    ensures h.code == 202 <==> h.tracker.Some?
    ensures h.code == 202 ==> "jobId" in h.body && "status" in h.body && h.body["status"] == "started"
    ensures h.code != 202 ==> (h.code == 400 || h.code == 500) && "error" in h.body
  {
    if !Truthy(req.pdfUrl) || !Truthy(req.docId) then
      ErrorResponse(400, MissingFieldsError)
    else if !apiKeySet then
      ErrorResponse(500, MissingKeyError)
    else
      var pdfUrl, docId := req.pdfUrl.value, req.docId.value;
      match create
      case CreateRaised(msg) =>
        Handled(500, map["error" := msg], Some(pdfUrl), None, Some(DocWrite(docId, Failed(msg))))
      case Created(jobId, url) =>
        if !Truthy(jobId) || !Truthy(url) then
          Handled(500, map["error" := IncompleteJobError], Some(pdfUrl), None, None)
        else
          Handled(202, map["docId" := docId, "jobId" := jobId.value, "status" := "started"], Some(pdfUrl),
                  Some(TrackerArgs(docId, jobId.value, url.value)), None)
  }

  /** A missing or empty field is rejected with 400 before anything else happens; only such requests get 400. */
  lemma RejectsMissingFields(req: Request, apiKeySet: bool, create: CreateJob)
    ensures var h := ExtractText(req, apiKeySet, create);
      (h.code == 400 <==> !Truthy(req.pdfUrl) || !Truthy(req.docId)) &&
      (h.code == 400 ==> h == ErrorResponse(400, MissingFieldsError))
  {
  }

  /** With both fields present and no API key the answer is 500 and no job is created. */
  lemma RejectsMissingApiKey(req: Request, create: CreateJob)
    requires Truthy(req.pdfUrl) && Truthy(req.docId)
    ensures ExtractText(req, false, create) == ErrorResponse(500, MissingKeyError)
  {
  }

  /** The conversion service is called, with the request's URL, exactly when validation passes. */
  lemma SubmitsOnlyValidRequests(req: Request, apiKeySet: bool, create: CreateJob)
    ensures var h := ExtractText(req, apiKeySet, create);
      (h.submitted.Some? <==> Truthy(req.pdfUrl) && Truthy(req.docId) && apiKeySet) &&
      (h.submitted.Some? ==> h.submitted == req.pdfUrl)
  {
  }

  /** A job response without a truthy jobId or url gives 500, no tracker and no write. */
  lemma RejectsIncompleteJob(req: Request, jobId: Option<string>, url: Option<string>)
    requires Truthy(req.pdfUrl) && Truthy(req.docId)
    requires !Truthy(jobId) || !Truthy(url)
    ensures var h := ExtractText(req, true, Created(jobId, url));
      h.code == 500 && h.body == map["error" := IncompleteJobError] && h.tracker.None? && h.write.None?
  {
  }

  /**
   * A tracker is started exactly when validation passes and the job came
   * back with both a jobId and a url; it gets the request's docId and those
   * two, and the answer is 202 with docId, jobId and status "started".
   */
  lemma StartsOneTracker(req: Request, apiKeySet: bool, create: CreateJob)
    ensures var h := ExtractText(req, apiKeySet, create);
      h.tracker.Some? <==>
        Truthy(req.pdfUrl) && Truthy(req.docId) && apiKeySet &&
        create.Created? && Truthy(create.jobId) && Truthy(create.url)
    ensures var h := ExtractText(req, apiKeySet, create);
      h.tracker.Some? ==>
        h.tracker.value == TrackerArgs(req.docId.value, create.jobId.value, create.url.value) &&
        h.body == map["docId" := req.docId.value, "jobId" := create.jobId.value, "status" := "started"] &&
        h.write.None?
  {
  }

  /**
   * When creating the job raises, the document is marked failed with the
   * exception's message, and the same message is returned with 500. This
   * is the only write the handler makes itself.
   */
  lemma CreateFailureMarksDocument(req: Request, apiKeySet: bool, create: CreateJob)
    ensures var h := ExtractText(req, apiKeySet, create);
      h.write.Some? <==> h.submitted.Some? && create.CreateRaised?
    ensures var h := ExtractText(req, apiKeySet, create);
      h.write.Some? ==>
        h.write.value == DocWrite(req.docId.value, Failed(create.msg)) &&
        h.code == 500 && h.body == map["error" := create.msg]
  {
  }

  /**
   * A started tracker works on the document and job the response names:
   * each of its two writes goes to the request's docId, and the first one
   * records the jobId returned to the caller.
   */
  lemma StartedTrackerFollowsResponse(req: Request, apiKeySet: bool, create: CreateJob, w: World)
    requires ExtractText(req, apiKeySet, create).tracker.Some?
    requires Covers(w, DefaultMaxWait)
    ensures var h := ExtractText(req, apiKeySet, create);
      var a := h.tracker.value;
      TrackerProperties.WritesOf(Run(a.docId, a.jobId, a.resultUrl, DefaultMaxWait, w))
        == [Write(req.docId.value, Working(h.body["jobId"]), w.workingAck),
            Write(req.docId.value, TerminalPayload(w, DefaultMaxWait), w.finalAck)]
  {
    var a := ExtractText(req, apiKeySet, create).tracker.value;
    TrackerProperties.ExactlyOneTerminalWrite(a.docId, a.jobId, a.resultUrl, DefaultMaxWait, w);
  }

  /** An example run's script: job J1 is "working" at 0 s and "success" at 10.5 s, then "Hello world" is downloaded and both writes return true. */
  function ExampleWorld(): (w: World)
    ensures Covers(w, DefaultMaxWait)
  {
    var w := World([0.0, 10.5], [PollStatus(Some("working")), PollStatus(Some("success"))], Fetched("Hello world"), true, true);
    assert EndsAt(w, DefaultMaxWait, 1);
    w
  }

  /** An example request (docId "D1", pdfUrl "https://x/y.pdf") whose job comes back as J1 starts a tracker for that job. */
  lemma ExampleRunStarts()
    ensures var h := ExtractText(Request(Some("https://x/y.pdf"), Some("D1")), true,
                                 Created(Some("J1"), Some("https://res/J1")));
      h.code == 202 && h.tracker == Some(TrackerArgs("D1", "J1", "https://res/J1"))
  {
  }

  /** That tracker checks twice, sleeps once, downloads once, stores the text and calls the embedder last. */
  lemma ExampleRunTrace()
    ensures FirstEnd(ExampleWorld(), DefaultMaxWait) == 1
    ensures TerminalPayload(ExampleWorld(), DefaultMaxWait) == Succeeded("Hello world")
    ensures Run("D1", "J1", "https://res/J1", DefaultMaxWait, ExampleWorld())
        == [Write("D1", Working("J1"), true), CheckJob("J1"), Sleep(PollInterval),
            CheckJob("J1"), FetchResult("https://res/J1"), Write("D1", Succeeded("Hello world"), true),
            TriggerEmbedder]
  {
    var w := ExampleWorld();
    assert TrackerProperties.PollsStatusAt(w, DefaultMaxWait, 1, "success");
    TrackerProperties.SuccessEnds("D1", "J1", "https://res/J1", DefaultMaxWait, w, 1, "Hello world");
    assert Rounds("J1", 1) == [CheckJob("J1"), Sleep(PollInterval)];
  }

  /** Whatever the row held before, it ends with the text as content, status success, no error, and the job id. */
  lemma ExampleRunRow(rec: Record)
    ensures var row := TrackerProperties.StoreAfter(rec, Run("D1", "J1", "https://res/J1", DefaultMaxWait, ExampleWorld()));
      ContentKey in row && StatusKey in row && ErrorKey in row && JobIdKey in row &&
      row[ContentKey] == Str("Hello world") && row[StatusKey] == Str("success") && row[ErrorKey] == Null &&
      row[JobIdKey] == Str("J1")
  {
    var w := ExampleWorld();
    ExampleRunTrace();
    TrackerProperties.StoredRecord(rec, "D1", "J1", "https://res/J1", DefaultMaxWait, w);
    var afterWorking := Apply(rec, ToDict(Working("J1")));
    var row := Apply(afterWorking, ToDict(Succeeded("Hello world")));
    assert TrackerProperties.StoreAfter(rec, Run("D1", "J1", "https://res/J1", DefaultMaxWait, w)) == row;
    assert afterWorking[JobIdKey] == Str("J1");
    assert JobIdKey !in ToDict(Succeeded("Hello world"));
  }
}
