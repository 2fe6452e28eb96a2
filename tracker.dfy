/**
 * The background tracker `background_wait_and_finalize` (app.py:75-127).
 *
 * The outside world is a finite script (`World`): the elapsed-time reading
 * taken at each test of the loop condition, the outcome of each status
 * check, the outcome of the single result download, and what each of the
 * two document writes returns. The tracker's observable behaviour is the
 * ordered list of calls it makes (`Event`).
 *
 * `Run` describes that behaviour at once, from the first loop test that
 * decides the run; `BackgroundWaitAndFinalize` is the step-by-step loop,
 * proved to produce exactly `Run`.
 */
module Tracker {
  import opened Optional
  import opened Payloads

  /** `time.sleep(poll_interval)` between two polls (app.py:78). */
  const PollInterval: nat := 10

  /** The default `max_wait_seconds`, the one the submitter uses (app.py:75, app.py:152-156). */
  const DefaultMaxWait: int := 1800

  /** One call of `pdfco_check_job` followed by `.get("status")` (app.py:87-93). */
  datatype Poll =
    | PollRaised(msg: string)              // any exception: transport, HTTP error, bad JSON
    | PollStatus(status: Option<string>)   // the status key; None when missing or not a string

  /** The single call of `pdfco_fetch_result_text` (app.py:96-103). */
  datatype Fetch = Fetched(text: string) | FetchRaised(msg: string)

  datatype World = World(
    clock: seq<real>,     // `time.time() - start` at each test of the loop condition
    polls: seq<Poll>,     // outcome of the status check made after each passing test
    fetch: Fetch,         // outcome of the download, if one is made
    workingAck: bool,     // what the "working" write returns
    finalAck: bool)       // what the terminal write returns

  /** A call the tracker makes on the outside world. */
  datatype Event =
    | Write(docId: string, payload: Payload, acked: bool)   // update_hoa_document and its result
    | CheckJob(jobId: string)                           // pdfco_check_job
    | Sleep(seconds: nat)                               // time.sleep
    | FetchResult(url: string)                          // pdfco_fetch_result_text
    | TriggerEmbedder                                   // trigger_embedder

  /** A status the loop acts on (app.py:95, app.py:115); any other poll is transient. */
  predicate IsTerminalPoll(p: Poll)
  {
    p.PollStatus? && p.status.Some? &&
    (p.status.value == "success" || p.status.value == "failed" || p.status.value == "aborted")
  }

  /** Loop test `i` ends the loop, or the poll that follows it ends the run. */
  predicate EndsAt(w: World, maxWait: int, i: nat)
  {
    i < |w.clock| &&
    (w.clock[i] >= maxWait as real || (i < |w.polls| && IsTerminalPoll(w.polls[i])))
  }

  /**
   * The script is long enough for the run: some loop test decides it, and
   * every test before that one has its poll scripted.
   */
  predicate Covers(w: World, maxWait: int)
  {
    exists d: nat :: d <= |w.polls| && EndsAt(w, maxWait, d)
  }

  /** The first loop test at or after `i` that decides the run. */
  function FirstEndFrom(w: World, maxWait: int, i: nat): (d: nat)
    requires exists d: nat :: i <= d <= |w.polls| && EndsAt(w, maxWait, d)
    ensures i <= d <= |w.polls| && EndsAt(w, maxWait, d)
    ensures forall j :: i <= j < d ==> !EndsAt(w, maxWait, j)
    decreases |w.polls| - i
  {
    if EndsAt(w, maxWait, i) then i else FirstEndFrom(w, maxWait, i + 1)
  }

  /** The loop test that decides the run: every earlier one passed and was followed by a transient poll. */
  function FirstEnd(w: World, maxWait: int): (d: nat)
    requires Covers(w, maxWait)
    ensures d <= |w.polls| && EndsAt(w, maxWait, d)
    ensures forall j :: 0 <= j < d ==> !EndsAt(w, maxWait, j)
  {
    FirstEndFrom(w, maxWait, 0)
  }

  /** The deadline was reached before any terminal status was seen. */
  predicate TimedOut(w: World, maxWait: int)
    requires Covers(w, maxWait)
  {
    w.clock[FirstEnd(w, maxWait)] >= maxWait as real
  }

  /** The terminal status that ended the polling. */
  function FinalStatus(w: World, maxWait: int): string
    requires Covers(w, maxWait) && !TimedOut(w, maxWait)
  {
    w.polls[FirstEnd(w, maxWait)].status.value
  }

  /** What the one terminal write sends. */
  function TerminalPayload(w: World, maxWait: int): Payload
    requires Covers(w, maxWait)
  {
    if TimedOut(w, maxWait) then Failed(TimeoutReason(maxWait))
    else if FinalStatus(w, maxWait) == "success" then
      match w.fetch
      case Fetched(text) => Succeeded(text)
      case FetchRaised(msg) => Failed(FetchReason(msg))
    else Failed(StatusReason(FinalStatus(w, maxWait)))
  }

  /** The embedder is called: a success status, a download, and a success write that returned true. */
  predicate Embeds(w: World, maxWait: int)
    requires Covers(w, maxWait)
  {
    !TimedOut(w, maxWait) && FinalStatus(w, maxWait) == "success" && w.fetch.Fetched? && w.finalAck
  }

  /** `n` polls that did not end the run: each is a status check and a sleep. */
  function Rounds(jobId: string, n: nat): seq<Event>
  {
    if n == 0 then [] else Rounds(jobId, n - 1) + [CheckJob(jobId), Sleep(PollInterval)]
  }

  /** Everything the tracker does after the deciding loop test. */
  function Finish(docId: string, jobId: string, resultUrl: string, maxWait: int, w: World): seq<Event>
    requires Covers(w, maxWait)
  {
    var terminal := [Write(docId, TerminalPayload(w, maxWait), w.finalAck)];
    if TimedOut(w, maxWait) then terminal
    else
      [CheckJob(jobId)]
      + (if FinalStatus(w, maxWait) == "success" then [FetchResult(resultUrl)] else [])
      + terminal
      + (if Embeds(w, maxWait) then [TriggerEmbedder] else [])
  }

  /** The whole behaviour of one tracker run. */
  function Run(docId: string, jobId: string, resultUrl: string, maxWait: int, w: World): seq<Event>
    requires Covers(w, maxWait)
  {
    [Write(docId, Working(jobId), w.workingAck)]
    + Rounds(jobId, FirstEnd(w, maxWait))
    + Finish(docId, jobId, resultUrl, maxWait, w)
  }

  /**
   * The polling loop of app.py:75-127, one loop test and one status check
   * per iteration, appending every call it makes to `trace`.
   */
  method BackgroundWaitAndFinalize(docId: string, jobId: string, resultUrl: string, maxWait: int, w: World)
    returns (trace: seq<Event>)
    requires Covers(w, maxWait)
    ensures trace == Run(docId, jobId, resultUrl, maxWait, w)
  {
    ghost var d := FirstEnd(w, maxWait);
    trace := [Write(docId, Working(jobId), w.workingAck)];
    var i := 0;  // loop tests made so far
    while w.clock[i] < maxWait as real
      invariant i <= d
      invariant trace == [Write(docId, Working(jobId), w.workingAck)] + Rounds(jobId, i)
      decreases d - i
    {
      var poll := w.polls[i];
      trace := trace + [CheckJob(jobId)];
      match poll
      case PollRaised(_) =>
        trace := trace + [Sleep(PollInterval)];
        i := i + 1;
        continue;
      case PollStatus(status) =>
        if status == Some("success") {
          assert EndsAt(w, maxWait, i);
          trace := trace + [FetchResult(resultUrl)];
          match w.fetch
          case FetchRaised(msg) =>
            trace := trace + [Write(docId, Failed(FetchReason(msg)), w.finalAck)];
            return;
          case Fetched(text) =>
            var ok := w.finalAck;
            trace := trace + [Write(docId, Succeeded(text), ok)];
            if ok {
              trace := trace + [TriggerEmbedder];
            }
            return;
        }
        if status == Some("failed") || status == Some("aborted") {
          assert EndsAt(w, maxWait, i);
          trace := trace + [Write(docId, Failed(StatusReason(status.value)), w.finalAck)];
          return;
        }
        trace := trace + [Sleep(PollInterval)];
        i := i + 1;
    }
    assert EndsAt(w, maxWait, i);
    trace := trace + [Write(docId, Failed(TimeoutReason(maxWait)), w.finalAck)];
  }
}
