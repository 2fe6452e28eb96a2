/**
 * The PATCH payloads sent to the HOADocuments table, the reason strings
 * they carry, and the document record those payloads update.
 *
 * A payload is the Python dict handed to `update_hoa_document`: a key that
 * is absent leaves the column alone, a key mapped to `Null` clears it.
 */
module Payloads {
  import Decimal

  datatype Value = Null | Str(s: string)

  type Patch = map<string, Value>

  /** A document row, column name to value. */
  type Record = map<string, Value>

  const JobIdKey := "pdfco_job_id"
  const StatusKey := "extraction_status"
  const ErrorKey := "extraction_error"
  const ContentKey := "content"

  /** The three payload shapes the program sends. */
  datatype Payload =
    | Working(jobId: string)    // when tracking starts (app.py:80-84)
    | Succeeded(text: string)   // when text was fetched (app.py:105-109)
    | Failed(reason: string)    // every failure: app.py:99-102, 116-119, 124-127 and 161-164

  /** The dict each payload is sent as. */
  function ToDict(p: Payload): Patch
  {
    match p
    case Working(jobId) => map[JobIdKey := Str(jobId), StatusKey := Str("working"), ErrorKey := Null]
    case Succeeded(text) => map[ContentKey := Str(text), StatusKey := Str("success"), ErrorKey := Null]
    case Failed(reason) => map[StatusKey := Str("failed"), ErrorKey := Str(reason)]
  }

  /** `f"pdfco_status_{status}"` (app.py:118). */
  function StatusReason(status: string): string { "pdfco_status_" + status }

  /** `f"fetch_result_failed: {str(e)}"` (app.py:101). */
  function FetchReason(msg: string): string { "fetch_result_failed: " + msg }

  /** `f"timeout_after_{max_wait_seconds}s"` (app.py:126). */
  function TimeoutReason(maxWait: int): string { "timeout_after_" + Decimal.IntToString(maxWait) + "s" }

  /** A payload that settles the document: its status is success or failure. */
  predicate IsTerminal(p: Payload)
  {
    StatusKey in ToDict(p) && (ToDict(p)[StatusKey] == Str("success") || ToDict(p)[StatusKey] == Str("failed"))
  }

  /** A partial update: the payload's keys overwrite, every other column stays. */
  function Apply(rec: Record, p: Patch): (r: Record)
    ensures forall k :: k in p ==> k in r && r[k] == p[k]
    ensures forall k :: k !in p ==> (k in r <==> k in rec) && (k in rec ==> r[k] == rec[k])
  {
    rec + p
  }

  /**
   * The consistency a settled row should show: a success row carries its
   * content and no error, a failed row carries an error string.
   */
  predicate Consistent(rec: Record)
  {
    && (StatusKey in rec && rec[StatusKey] == Str("success") ==>
          ContentKey in rec && rec[ContentKey].Str? && ErrorKey in rec && rec[ErrorKey] == Null)
    && (StatusKey in rec && rec[StatusKey] == Str("failed") ==>
          ErrorKey in rec && rec[ErrorKey].Str?)
  }

  /** Every payload the program sends leaves the row consistent, whatever it held before. */
  lemma PayloadsKeepConsistent(rec: Record, p: Payload)
    ensures Consistent(Apply(rec, ToDict(p)))
    ensures IsTerminal(p) <==> !p.Working?
    ensures JobIdKey in ToDict(p) <==> p.Working?
  {
  }

  /** The three failure reasons of the tracker can never be mistaken for each other. */
  lemma ReasonsDistinct(status: string, msg: string, maxWait: int)
    ensures StatusReason(status) != FetchReason(msg)
    ensures StatusReason(status) != TimeoutReason(maxWait)
    ensures FetchReason(msg) != TimeoutReason(maxWait)
  {
    assert StatusReason(status)[0] == 'p';
    assert FetchReason(msg)[0] == 'f';
    assert TimeoutReason(maxWait)[0] == 't';
  }

  /** Each reason keeps the detail it was built from: distinct causes give distinct reasons. */
  lemma ReasonsInjective(s1: string, s2: string, maxWait1: int, maxWait2: int)
    ensures StatusReason(s1) == StatusReason(s2) ==> s1 == s2
    ensures FetchReason(s1) == FetchReason(s2) ==> s1 == s2
    ensures TimeoutReason(maxWait1) == TimeoutReason(maxWait2) ==> maxWait1 == maxWait2
  {
    if StatusReason(s1) == StatusReason(s2) {
      assert s1 == StatusReason(s1)[13..];
    }
    if FetchReason(s1) == FetchReason(s2) {
      assert s1 == FetchReason(s1)[21..];
    }
    if TimeoutReason(maxWait1) == TimeoutReason(maxWait2) {
      var t1, t2 := Decimal.IntToString(maxWait1), Decimal.IntToString(maxWait2);
      assert t1 == TimeoutReason(maxWait1)[14..|TimeoutReason(maxWait1)| - 1];
      assert t2 == TimeoutReason(maxWait2)[14..|TimeoutReason(maxWait2)| - 1];
      Decimal.IntToStringInjective(maxWait1, maxWait2);
    }
  }

  /** With the default deadline of 1800 seconds the reason reads exactly `timeout_after_1800s`. */
  lemma DefaultTimeoutReason()
    ensures TimeoutReason(1800) == "timeout_after_1800s"
  {
    assert Decimal.NatToString(1) == "1";
    assert Decimal.NatToString(18) == "18";
    assert Decimal.NatToString(180) == "180";
    assert Decimal.NatToString(1800) == "1800";
  }
}
