/**
 * What a tracker run promises, stated about `Tracker.Run` (and so, through
 * its postcondition, about `Tracker.BackgroundWaitAndFinalize`).
 */
module TrackerProperties {
  import opened Optional
  import opened Payloads
  import opened Tracker

  // ---------------------------------------------------------------------
  // Views of a trace

  /** The document writes of a trace, in order. */
  function WritesOf(t: seq<Event>): seq<Event>
  {
    if t == [] then [] else (if t[0].Write? then [t[0]] else []) + WritesOf(t[1..])
  }

  /** The document row after the writes of `t` that returned true were applied in order. */
  function StoreAfter(rec: Record, t: seq<Event>): Record
    decreases |t|
  {
    if t == [] then rec
    else StoreAfter(if t[0].Write? && t[0].acked then Apply(rec, ToDict(t[0].payload)) else rec, t[1..])
  }

  lemma WritesOfSingle(e: Event)
    ensures WritesOf([e]) == if e.Write? then [e] else []
  {
    assert [e][1..] == [];
  }

  lemma {:induction false} WritesOfConcat(a: seq<Event>, b: seq<Event>)
    ensures WritesOf(a + b) == WritesOf(a) + WritesOf(b)
  {
    if a == [] {
      assert a + b == b;
    } else {
      var head := if a[0].Write? then [a[0]] else [];
      assert (a + b)[0] == a[0];
      assert (a + b)[1..] == a[1..] + b;
      WritesOfConcat(a[1..], b);
      calc {
        WritesOf(a + b);
        head + WritesOf(a[1..] + b);
        head + (WritesOf(a[1..]) + WritesOf(b));
        (head + WritesOf(a[1..])) + WritesOf(b);
        WritesOf(a) + WritesOf(b);
      }
    }
  }

  /** Occurrences of an event that `head` lacks are all in `tail`. */
  lemma CountBeyond(head: seq<Event>, tail: seq<Event>, e: Event)
    requires e !in head
    ensures multiset(head + tail)[e] == multiset(tail)[e]
  {
    assert multiset(head + tail) == multiset(head) + multiset(tail);
    assert e !in multiset(head);
  }

  /** A trace without writes contributes nothing to `WritesOf`. */
  lemma {:induction false} NoWrites(t: seq<Event>)
    requires forall i :: 0 <= i < |t| ==> !t[i].Write?
    ensures WritesOf(t) == []
  {
    if t != [] {
      NoWrites(t[1..]);
    }
  }

  /** A trace whose only write is at position `i`. */
  lemma {:induction false} OnlyWrite(t: seq<Event>, i: nat)
    requires i < |t| && t[i].Write?
    requires forall j :: 0 <= j < |t| && j != i ==> !t[j].Write?
    ensures WritesOf(t) == [t[i]]
  {
    if i == 0 {
      NoWrites(t[1..]);
    } else {
      OnlyWrite(t[1..], i - 1);
    }
  }

  /** Only the writes of a trace change the row. */
  lemma {:induction false} StoreAfterWrites(rec: Record, t: seq<Event>)
    ensures StoreAfter(rec, t) == StoreAfter(rec, WritesOf(t))
    decreases |t|
  {
    if t != [] {
      var next := if t[0].Write? && t[0].acked then Apply(rec, ToDict(t[0].payload)) else rec;
      StoreAfterWrites(next, t[1..]);
      if t[0].Write? {
        var r := WritesOf(t);
        assert r == [t[0]] + WritesOf(t[1..]);
        assert r[0] == t[0] && r[1..] == WritesOf(t[1..]);
      } else {
        assert WritesOf(t) == WritesOf(t[1..]) by {
          assert [] + WritesOf(t[1..]) == WritesOf(t[1..]);
        }
      }
    }
  }

  /** The polls between the working write and the deciding loop test: status checks and sleeps only. */
  lemma {:induction false} RoundsShape(jobId: string, n: nat)
    ensures |Rounds(jobId, n)| == 2 * n
    ensures WritesOf(Rounds(jobId, n)) == []
    ensures multiset(Rounds(jobId, n))[CheckJob(jobId)] == n
    ensures forall j :: 0 <= j < n ==>
      Rounds(jobId, n)[2 * j] == CheckJob(jobId) && Rounds(jobId, n)[2 * j + 1] == Sleep(PollInterval)
    ensures forall e :: e in Rounds(jobId, n) ==> e == CheckJob(jobId) || e == Sleep(PollInterval)
  {
    RoundsLength(jobId, n);
    RoundsNoWrites(jobId, n);
    RoundsChecks(jobId, n);
    forall j | 0 <= j < n
      ensures Rounds(jobId, n)[2 * j] == CheckJob(jobId) && Rounds(jobId, n)[2 * j + 1] == Sleep(PollInterval)
    {
      RoundsAt(jobId, n, j);
    }
    forall e | e in Rounds(jobId, n)
      ensures e == CheckJob(jobId) || e == Sleep(PollInterval)
    {
      RoundsMember(jobId, n, e);
    }
  }

  /** Round `j` is a status check at position `2j` followed by a sleep. */
  lemma {:induction false} RoundsAt(jobId: string, n: nat, j: nat)
    requires j < n
    ensures |Rounds(jobId, n)| == 2 * n
    ensures Rounds(jobId, n)[2 * j] == CheckJob(jobId) && Rounds(jobId, n)[2 * j + 1] == Sleep(PollInterval)
  {
    var prev := Rounds(jobId, n - 1);
    RoundsLength(jobId, n - 1);
    assert Rounds(jobId, n) == prev + [CheckJob(jobId), Sleep(PollInterval)];
    if j < n - 1 {
      RoundsAt(jobId, n - 1, j);
    }
  }

  lemma {:induction false} RoundsMember(jobId: string, n: nat, e: Event)
    requires e in Rounds(jobId, n)
    ensures e == CheckJob(jobId) || e == Sleep(PollInterval)
  {
    assert n > 0;
    assert Rounds(jobId, n) == Rounds(jobId, n - 1) + [CheckJob(jobId), Sleep(PollInterval)];
    if e in Rounds(jobId, n - 1) {
      RoundsMember(jobId, n - 1, e);
    }
  }

  lemma {:induction false} RoundsNoWrites(jobId: string, n: nat)
    ensures WritesOf(Rounds(jobId, n)) == []
  {
    if n > 0 {
      var round := [CheckJob(jobId), Sleep(PollInterval)];
      RoundsNoWrites(jobId, n - 1);
      WritesOfConcat(Rounds(jobId, n - 1), round);
      NoWrites(round);
    }
  }

  lemma {:induction false} RoundsChecks(jobId: string, n: nat)
    ensures multiset(Rounds(jobId, n))[CheckJob(jobId)] == n
  {
    if n > 0 {
      var round := [CheckJob(jobId), Sleep(PollInterval)];
      RoundsChecks(jobId, n - 1);
      assert multiset(Rounds(jobId, n)) == multiset(Rounds(jobId, n - 1)) + multiset(round);
    }
  }

  /** Nothing but status checks and sleeps happens during the rounds. */
  lemma {:induction false} RoundsExclude(jobId: string, n: nat, e: Event)
    requires e != CheckJob(jobId) && e != Sleep(PollInterval)
    ensures e !in Rounds(jobId, n)
  {
    if n > 0 {
      RoundsExclude(jobId, n - 1, e);
      assert Rounds(jobId, n) == Rounds(jobId, n - 1) + [CheckJob(jobId), Sleep(PollInterval)];
    }
  }

  lemma {:induction false} RoundsLength(jobId: string, n: nat)
    ensures |Rounds(jobId, n)| == 2 * n
  {
    if n > 0 {
      RoundsLength(jobId, n - 1);
    }
  }

  /** A prefix of `a + b` no longer than `a` is a prefix of `a`. */
  lemma PrefixOfConcat(a: seq<Event>, b: seq<Event>, m: nat)
    requires m <= |a|
    ensures (a + b)[..m] == a[..m]
  {
  }

  /** The first `k` rounds of a run of `n` rounds are `Rounds(jobId, k)`. */
  lemma {:induction false} RoundsPrefix(jobId: string, n: nat, k: nat)
    requires k <= n
    ensures |Rounds(jobId, n)| == 2 * n
    ensures Rounds(jobId, n)[..2 * k] == Rounds(jobId, k)
  {
    RoundsLength(jobId, n);
    if k < n {
      var prev := Rounds(jobId, n - 1);
      RoundsLength(jobId, n - 1);
      RoundsPrefix(jobId, n - 1, k);
      PrefixOfConcat(prev, [CheckJob(jobId), Sleep(PollInterval)], 2 * k);
    } else {
      assert Rounds(jobId, n)[..2 * n] == Rounds(jobId, n);
    }
  }

  // ---------------------------------------------------------------------
  // The script seen from outside: which loop test decides the run

  /** The first `k` loop tests found time left, and each was followed by a transient poll. */
  predicate PassesUntil(w: World, maxWait: int, k: nat)
  {
    forall j :: 0 <= j < k ==>
      j < |w.clock| && w.clock[j] < maxWait as real && j < |w.polls| && !IsTerminalPoll(w.polls[j])
  }

  /** Loop test `k` is reached, finds time left, and its poll returns status `s`. */
  predicate PollsStatusAt(w: World, maxWait: int, k: nat, s: string)
  {
    PassesUntil(w, maxWait, k) && k < |w.clock| && w.clock[k] < maxWait as real &&
    k < |w.polls| && w.polls[k] == PollStatus(Some(s))
  }

  /** Loop test `k` is reached and finds the deadline passed. */
  predicate DeadlineAt(w: World, maxWait: int, k: nat)
  {
    PassesUntil(w, maxWait, k) && k < |w.clock| && w.clock[k] >= maxWait as real
  }

  /** A loop test that ends the run after only transient polls is the deciding one. */
  lemma DecidedAt(w: World, maxWait: int, k: nat)
    requires PassesUntil(w, maxWait, k) && k <= |w.polls| && EndsAt(w, maxWait, k)
    ensures Covers(w, maxWait) && FirstEnd(w, maxWait) == k
  {
    var d := FirstEnd(w, maxWait);
    // `d` ends the run, so it cannot come before `k`; `k` ends it, so it cannot come before `d`.
    assert EndsAt(w, maxWait, d) && d < |w.clock|;
  }

  /** The deciding loop test is reached after only transient polls. */
  lemma FirstEndPasses(w: World, maxWait: int)
    requires Covers(w, maxWait)
    ensures PassesUntil(w, maxWait, FirstEnd(w, maxWait))
  {
    var d := FirstEnd(w, maxWait);
    forall j | 0 <= j < d
      ensures j < |w.clock| && w.clock[j] < maxWait as real && j < |w.polls| && !IsTerminalPoll(w.polls[j])
    {
      assert !EndsAt(w, maxWait, j);
    }
  }

  // ---------------------------------------------------------------------
  // Lifecycle: one working write, polling, one terminal write

  /** What the working write returned plays no part in deciding the run or in how it ends. */
  lemma DecisionIgnoresWorkingAck(docId: string, jobId: string, resultUrl: string, maxWait: int, w: World, ack: bool)
    requires Covers(w, maxWait)
    ensures Covers(w.(workingAck := ack), maxWait)
    ensures FirstEnd(w.(workingAck := ack), maxWait) == FirstEnd(w, maxWait)
    ensures Finish(docId, jobId, resultUrl, maxWait, w.(workingAck := ack)) == Finish(docId, jobId, resultUrl, maxWait, w)
  {
    var w' := w.(workingAck := ack);
    FirstEndPasses(w, maxWait);
    DecidedAt(w', maxWait, FirstEnd(w, maxWait));
    assert TerminalPayload(w', maxWait) == TerminalPayload(w, maxWait);
  }

  /**
   * The first call is the "working" write, and the rest of the run does
   * not depend on what that write returned.
   */
  lemma RunIgnoresWorkingAck(docId: string, jobId: string, resultUrl: string, maxWait: int, w: World, ack: bool)
    requires Covers(w, maxWait)
    ensures Covers(w.(workingAck := ack), maxWait)
    ensures Run(docId, jobId, resultUrl, maxWait, w)[0] == Write(docId, Working(jobId), w.workingAck)
    ensures Run(docId, jobId, resultUrl, maxWait, w.(workingAck := ack))[1..]
         == Run(docId, jobId, resultUrl, maxWait, w)[1..]
  {
    var w' := w.(workingAck := ack);
    DecisionIgnoresWorkingAck(docId, jobId, resultUrl, maxWait, w, ack);
    var tail := Rounds(jobId, FirstEnd(w, maxWait)) + Finish(docId, jobId, resultUrl, maxWait, w);
    var t, t' := Run(docId, jobId, resultUrl, maxWait, w), Run(docId, jobId, resultUrl, maxWait, w');
    assert t == [Write(docId, Working(jobId), w.workingAck)] + tail;
    assert t' == [Write(docId, Working(jobId), ack)] + tail;
    assert t[1..] == tail && t'[1..] == tail;
  }

  /** What follows the deciding loop test, for each way of ending. */
  lemma FinishShape(docId: string, jobId: string, resultUrl: string, maxWait: int, w: World)
    requires Covers(w, maxWait)
    ensures var f := Finish(docId, jobId, resultUrl, maxWait, w);
      var terminal := Write(docId, TerminalPayload(w, maxWait), w.finalAck);
      && (TimedOut(w, maxWait) ==> f == [terminal])
      && (!TimedOut(w, maxWait) && FinalStatus(w, maxWait) == "success" ==>
            f == [CheckJob(jobId), FetchResult(resultUrl), terminal] + (if Embeds(w, maxWait) then [TriggerEmbedder] else []))
      && (!TimedOut(w, maxWait) && FinalStatus(w, maxWait) != "success" ==>
            f == [CheckJob(jobId), terminal] && !Embeds(w, maxWait))
  {
    var terminal := Write(docId, TerminalPayload(w, maxWait), w.finalAck);
    if !TimedOut(w, maxWait) {
      if FinalStatus(w, maxWait) == "success" {
        assert [CheckJob(jobId)] + [FetchResult(resultUrl)] + [terminal] == [CheckJob(jobId), FetchResult(resultUrl), terminal];
      } else {
        assert [CheckJob(jobId)] + [] + [terminal] + [] == [CheckJob(jobId), terminal];
      }
    }
  }

  /** The deciding loop test leads to exactly one write: the terminal one. */
  lemma FinishWrites(docId: string, jobId: string, resultUrl: string, maxWait: int, w: World)
    requires Covers(w, maxWait)
    ensures WritesOf(Finish(docId, jobId, resultUrl, maxWait, w)) == [Write(docId, TerminalPayload(w, maxWait), w.finalAck)]
  {
    var f := Finish(docId, jobId, resultUrl, maxWait, w);
    FinishShape(docId, jobId, resultUrl, maxWait, w);
    if TimedOut(w, maxWait) {
      OnlyWrite(f, 0);
    } else if FinalStatus(w, maxWait) == "success" {
      OnlyWrite(f, 2);
    } else {
      OnlyWrite(f, 1);
    }
  }

  /**
   * A run makes exactly two document writes, both for `docId`: the
   * "working" write first and one terminal write (success or failure).
   */
  lemma ExactlyOneTerminalWrite(docId: string, jobId: string, resultUrl: string, maxWait: int, w: World)
    requires Covers(w, maxWait)
    ensures WritesOf(Run(docId, jobId, resultUrl, maxWait, w))
         == [Write(docId, Working(jobId), w.workingAck), Write(docId, TerminalPayload(w, maxWait), w.finalAck)]
    ensures IsTerminal(TerminalPayload(w, maxWait)) && !IsTerminal(Working(jobId))
  {
    var d := FirstEnd(w, maxWait);
    var first := [Write(docId, Working(jobId), w.workingAck)];
    var f := Finish(docId, jobId, resultUrl, maxWait, w);
    assert WritesOf(Rounds(jobId, d)) == [] by {
      RoundsNoWrites(jobId, d);
    }
    FinishWrites(docId, jobId, resultUrl, maxWait, w);
    WritesOfSingle(first[0]);
    WritesOfConcat(first, Rounds(jobId, d));
    WritesOfConcat(first + Rounds(jobId, d), f);
    assert Run(docId, jobId, resultUrl, maxWait, w) == first + Rounds(jobId, d) + f;
    PayloadsKeepConsistent(map[], TerminalPayload(w, maxWait));
    PayloadsKeepConsistent(map[], Working(jobId));
  }

  /** The run ends with the terminal write, or with the embedder call right after it. */
  lemma TerminalWriteIsLast(docId: string, jobId: string, resultUrl: string, maxWait: int, w: World)
    requires Covers(w, maxWait)
    ensures var t := Run(docId, jobId, resultUrl, maxWait, w);
      var terminal := Write(docId, TerminalPayload(w, maxWait), w.finalAck);
      t[|t| - 1] == terminal || (|t| >= 2 && t[|t| - 2] == terminal && t[|t| - 1] == TriggerEmbedder)
  {
    var d := FirstEnd(w, maxWait);
    var f := Finish(docId, jobId, resultUrl, maxWait, w);
    FinishShape(docId, jobId, resultUrl, maxWait, w);
    assert Run(docId, jobId, resultUrl, maxWait, w) == [Write(docId, Working(jobId), w.workingAck)] + Rounds(jobId, d) + f;
  }

  /**
   * A poll that raised, or returned a status other than success, failed
   * or aborted, makes no write: it is followed by a sleep and another loop
   * test. If the first `k` tests found time left and drew such polls, the
   * run begins with the working write and `k` check-and-sleep rounds.
   */
  lemma TransientPollsContinue(docId: string, jobId: string, resultUrl: string, maxWait: int, w: World, k: nat)
    requires Covers(w, maxWait) && PassesUntil(w, maxWait, k)
    ensures FirstEnd(w, maxWait) >= k
    ensures var t := Run(docId, jobId, resultUrl, maxWait, w);
      |t| > 2 * k && t[..1 + 2 * k] == [Write(docId, Working(jobId), w.workingAck)] + Rounds(jobId, k)
    ensures WritesOf(Rounds(jobId, k)) == []
  {
    var d := FirstEnd(w, maxWait);
    assert EndsAt(w, maxWait, d) && d < |w.clock|;
    var first := [Write(docId, Working(jobId), w.workingAck)];
    var t := Run(docId, jobId, resultUrl, maxWait, w);
    RoundsPrefix(jobId, d, k);
    RoundsNoWrites(jobId, k);
    assert Finish(docId, jobId, resultUrl, maxWait, w) != [];
    assert t == first + Rounds(jobId, d) + Finish(docId, jobId, resultUrl, maxWait, w);
    assert t[..1 + 2 * k] == first + Rounds(jobId, d)[..2 * k];
  }

  /** A raised poll and a non-terminal status are handled alike: swapping one for the other changes nothing. */
  lemma TransientPollsInterchangeable(docId: string, jobId: string, resultUrl: string, maxWait: int,
                                      w: World, i: nat, p: Poll)
    requires Covers(w, maxWait)
    requires i < |w.polls| && !IsTerminalPoll(w.polls[i]) && !IsTerminalPoll(p)
    ensures Covers(w.(polls := w.polls[i := p]), maxWait)
    ensures Run(docId, jobId, resultUrl, maxWait, w.(polls := w.polls[i := p]))
         == Run(docId, jobId, resultUrl, maxWait, w)
  {
    var w' := w.(polls := w.polls[i := p]);
    var d := FirstEnd(w, maxWait);
    FirstEndPasses(w, maxWait);
    assert PassesUntil(w', maxWait, d) by {
      forall j | 0 <= j < d
        ensures j < |w'.clock| && w'.clock[j] < maxWait as real && j < |w'.polls| && !IsTerminalPoll(w'.polls[j])
      {
        assert j < |w.polls| && !IsTerminalPoll(w.polls[j]);
      }
    }
    assert EndsAt(w', maxWait, d) by {
      if d == i {
        assert w.clock[d] >= maxWait as real;
      } else if d < |w.polls| {
        assert w'.polls[d] == w.polls[d];
      }
    }
    DecidedAt(w', maxWait, d);
    if !TimedOut(w, maxWait) {
      assert d != i;
      assert w'.polls[d] == w.polls[d];
    }
  }

  // ---------------------------------------------------------------------
  // The four ways a run ends

  /**
   * Status "failed" or "aborted" ends the run with one failure write whose
   * reason is `pdfco_status_<status>`; nothing is downloaded and the
   * embedder is not called.
   */
  lemma StatusFailureEnds(docId: string, jobId: string, resultUrl: string, maxWait: int, w: World, k: nat, s: string)
    requires s == "failed" || s == "aborted"
    requires PollsStatusAt(w, maxWait, k, s)
    ensures Covers(w, maxWait)
    ensures Run(docId, jobId, resultUrl, maxWait, w)
         == [Write(docId, Working(jobId), w.workingAck)] + Rounds(jobId, k)
            + [CheckJob(jobId), Write(docId, Failed(StatusReason(s)), w.finalAck)]
    ensures TriggerEmbedder !in Run(docId, jobId, resultUrl, maxWait, w)
    ensures FetchResult(resultUrl) !in Run(docId, jobId, resultUrl, maxWait, w)
  {
    DecidedAt(w, maxWait, k);
    RoundsExclude(jobId, k, TriggerEmbedder);
    RoundsExclude(jobId, k, FetchResult(resultUrl));
    assert !TimedOut(w, maxWait) && FinalStatus(w, maxWait) == s;
    assert TerminalPayload(w, maxWait) == Failed(StatusReason(s));
    assert Finish(docId, jobId, resultUrl, maxWait, w)
        == [CheckJob(jobId), Write(docId, Failed(StatusReason(s)), w.finalAck)];
  }

  /**
   * Status "success" with a download that raised ends the run with one
   * failure write `fetch_result_failed: <msg>`; the download is tried once
   * and the embedder is not called.
   */
  lemma FetchFailureEnds(docId: string, jobId: string, resultUrl: string, maxWait: int, w: World, k: nat, msg: string)
    requires PollsStatusAt(w, maxWait, k, "success") && w.fetch == FetchRaised(msg)
    ensures Covers(w, maxWait)
    ensures Run(docId, jobId, resultUrl, maxWait, w)
         == [Write(docId, Working(jobId), w.workingAck)] + Rounds(jobId, k)
            + [CheckJob(jobId), FetchResult(resultUrl), Write(docId, Failed(FetchReason(msg)), w.finalAck)]
    ensures FetchResult(resultUrl) !in Rounds(jobId, k) && TriggerEmbedder !in Run(docId, jobId, resultUrl, maxWait, w)
  {
    DecidedAt(w, maxWait, k);
    var head := [Write(docId, Working(jobId), w.workingAck)] + Rounds(jobId, k);
    var tail := [CheckJob(jobId), FetchResult(resultUrl), Write(docId, Failed(FetchReason(msg)), w.finalAck)];
    assert Finish(docId, jobId, resultUrl, maxWait, w) == tail by {
      FinishShape(docId, jobId, resultUrl, maxWait, w);
      assert !TimedOut(w, maxWait) && FinalStatus(w, maxWait) == "success" && !Embeds(w, maxWait);
    }
    assert FetchResult(resultUrl) !in head && TriggerEmbedder !in head by {
      RoundsExclude(jobId, k, TriggerEmbedder);
      RoundsExclude(jobId, k, FetchResult(resultUrl));
    }
    assert Run(docId, jobId, resultUrl, maxWait, w) == head + tail;
  }

  /** The download is attempted once, never retried. */
  lemma FetchAttemptedOnce(docId: string, jobId: string, resultUrl: string, maxWait: int, w: World, k: nat)
    requires PollsStatusAt(w, maxWait, k, "success")
    ensures Covers(w, maxWait)
    ensures multiset(Run(docId, jobId, resultUrl, maxWait, w))[FetchResult(resultUrl)] == 1
  {
    DecidedAt(w, maxWait, k);
    var head := [Write(docId, Working(jobId), w.workingAck)] + Rounds(jobId, k);
    var f := Finish(docId, jobId, resultUrl, maxWait, w);
    assert FetchResult(resultUrl) !in head by {
      RoundsExclude(jobId, k, FetchResult(resultUrl));
    }
    assert multiset(f)[FetchResult(resultUrl)] == 1 by {
      FinishShape(docId, jobId, resultUrl, maxWait, w);
      assert !TimedOut(w, maxWait) && FinalStatus(w, maxWait) == "success";
      var rest := [Write(docId, TerminalPayload(w, maxWait), w.finalAck)]
                  + (if Embeds(w, maxWait) then [TriggerEmbedder] else []);
      assert f == [CheckJob(jobId), FetchResult(resultUrl)] + rest;
      assert FetchResult(resultUrl) !in multiset(rest);
      assert multiset(f) == multiset([CheckJob(jobId), FetchResult(resultUrl)]) + multiset(rest);
    }
    assert Run(docId, jobId, resultUrl, maxWait, w) == head + f;
    CountBeyond(head, f, FetchResult(resultUrl));
  }

  /**
   * Status "success" with a download that returned `text` ends the run
   * with one success write of that text; the embedder is called once,
   * right after it, when that write returned true, and never otherwise.
   */
  lemma SuccessEnds(docId: string, jobId: string, resultUrl: string, maxWait: int, w: World, k: nat, text: string)
    requires PollsStatusAt(w, maxWait, k, "success") && w.fetch == Fetched(text)
    ensures Covers(w, maxWait)
    ensures Run(docId, jobId, resultUrl, maxWait, w)
         == [Write(docId, Working(jobId), w.workingAck)] + Rounds(jobId, k)
            + [CheckJob(jobId), FetchResult(resultUrl), Write(docId, Succeeded(text), w.finalAck)]
            + (if w.finalAck then [TriggerEmbedder] else [])
    ensures TriggerEmbedder !in Rounds(jobId, k)
  {
    DecidedAt(w, maxWait, k);
    var head := [Write(docId, Working(jobId), w.workingAck)] + Rounds(jobId, k);
    var tail := [CheckJob(jobId), FetchResult(resultUrl), Write(docId, Succeeded(text), w.finalAck)]
                + (if w.finalAck then [TriggerEmbedder] else []);
    assert Finish(docId, jobId, resultUrl, maxWait, w) == tail by {
      FinishShape(docId, jobId, resultUrl, maxWait, w);
      assert !TimedOut(w, maxWait) && FinalStatus(w, maxWait) == "success";
      assert Embeds(w, maxWait) == w.finalAck;
    }
    assert TriggerEmbedder !in head by {
      RoundsExclude(jobId, k, TriggerEmbedder);
    }
    assert Run(docId, jobId, resultUrl, maxWait, w) == head + tail;
  }

  /** After a success write the embedder is called once if that write returned true, and not at all otherwise. */
  lemma EmbedderCalledOnce(docId: string, jobId: string, resultUrl: string, maxWait: int, w: World, k: nat, text: string)
    requires PollsStatusAt(w, maxWait, k, "success") && w.fetch == Fetched(text)
    ensures Covers(w, maxWait)
    ensures multiset(Run(docId, jobId, resultUrl, maxWait, w))[TriggerEmbedder] == if w.finalAck then 1 else 0
  {
    SuccessEnds(docId, jobId, resultUrl, maxWait, w, k, text);
    var head := [Write(docId, Working(jobId), w.workingAck)] + Rounds(jobId, k);
    var tail := [CheckJob(jobId), FetchResult(resultUrl), Write(docId, Succeeded(text), w.finalAck)]
                + (if w.finalAck then [TriggerEmbedder] else []);
    CountBeyond(head, tail, TriggerEmbedder);
  }

  /**
   * The deadline ends the run with one failure write
   * `timeout_after_<maxWait>s`; no terminal status was seen before it.
   */
  lemma TimeoutEnds(docId: string, jobId: string, resultUrl: string, maxWait: int, w: World, k: nat)
    requires DeadlineAt(w, maxWait, k)
    ensures Covers(w, maxWait)
    ensures Run(docId, jobId, resultUrl, maxWait, w)
         == [Write(docId, Working(jobId), w.workingAck)] + Rounds(jobId, k)
            + [Write(docId, Failed(TimeoutReason(maxWait)), w.finalAck)]
  {
    if k > 0 {
      assert w.clock[k - 1] < maxWait as real && k - 1 < |w.polls|;
    }
    DecidedAt(w, maxWait, k);
  }

  /** The terminal write is the timeout write exactly when the deadline passed before any terminal status. */
  lemma TimeoutIff(w: World, maxWait: int)
    requires Covers(w, maxWait)
    ensures TerminalPayload(w, maxWait) == Failed(TimeoutReason(maxWait))
        <==> exists k: nat :: DeadlineAt(w, maxWait, k)
  {
    var d := FirstEnd(w, maxWait);
    var timeout := Failed(TimeoutReason(maxWait));
    FirstEndPasses(w, maxWait);
    if TimedOut(w, maxWait) {
      assert DeadlineAt(w, maxWait, d);
    } else {
      var s := FinalStatus(w, maxWait);
      if s == "success" {
        if w.fetch.FetchRaised? {
          ReasonsDistinct(s, w.fetch.msg, maxWait);
        }
      } else {
        ReasonsDistinct(s, "", maxWait);
      }
    }
    if exists k: nat :: DeadlineAt(w, maxWait, k) {
      var k: nat :| DeadlineAt(w, maxWait, k);
      if k > 0 {
        assert k - 1 < |w.polls|;
      }
      DecidedAt(w, maxWait, k);
    }
  }

  /** `Embeds` in terms of the script: some reached poll said "success", the download worked, the write returned true. */
  lemma EmbedsIff(w: World, maxWait: int)
    requires Covers(w, maxWait)
    ensures Embeds(w, maxWait)
        <==> (exists k: nat :: PollsStatusAt(w, maxWait, k, "success")) && w.fetch.Fetched? && w.finalAck
  {
    var d := FirstEnd(w, maxWait);
    FirstEndPasses(w, maxWait);
    if Embeds(w, maxWait) {
      assert PollsStatusAt(w, maxWait, d, "success");
    }
    if exists k: nat :: PollsStatusAt(w, maxWait, k, "success") {
      var k: nat :| PollsStatusAt(w, maxWait, k, "success");
      DecidedAt(w, maxWait, k);
    }
  }

  /** The embedder call appears in the trace exactly when `Embeds` holds. */
  lemma EmbedderInRun(docId: string, jobId: string, resultUrl: string, maxWait: int, w: World)
    requires Covers(w, maxWait)
    ensures TriggerEmbedder in Run(docId, jobId, resultUrl, maxWait, w) <==> Embeds(w, maxWait)
  {
    var d := FirstEnd(w, maxWait);
    var head := [Write(docId, Working(jobId), w.workingAck)] + Rounds(jobId, d);
    var f := Finish(docId, jobId, resultUrl, maxWait, w);
    assert TriggerEmbedder !in head by {
      RoundsExclude(jobId, d, TriggerEmbedder);
    }
    FinishShape(docId, jobId, resultUrl, maxWait, w);
    assert Run(docId, jobId, resultUrl, maxWait, w) == head + f;
  }

  /** After an acknowledged success write the embedder call is the last call, and the only one. */
  lemma EmbedderIsLast(docId: string, jobId: string, resultUrl: string, maxWait: int, w: World, k: nat, text: string)
    requires PollsStatusAt(w, maxWait, k, "success") && w.fetch == Fetched(text) && w.finalAck
    ensures Covers(w, maxWait)
    ensures var t := Run(docId, jobId, resultUrl, maxWait, w);
      |t| >= 2 && t[|t| - 1] == TriggerEmbedder && TriggerEmbedder !in t[..|t| - 1] &&
      t[|t| - 2] == Write(docId, Succeeded(text), true)
  {
    SuccessEnds(docId, jobId, resultUrl, maxWait, w, k, text);
    var t := Run(docId, jobId, resultUrl, maxWait, w);
    var head := [Write(docId, Working(jobId), w.workingAck)] + Rounds(jobId, k)
                + [CheckJob(jobId), FetchResult(resultUrl), Write(docId, Succeeded(text), true)];
    assert t == head + [TriggerEmbedder];
    assert t[..|t| - 1] == head;
  }

  /**
   * The embedder is called exactly when some poll returned "success", the
   * download returned text and the success write returned true; it is
   * called at most once, as the last call, right after that write.
   */
  lemma EmbedderOnlyAfterAckedSuccess(docId: string, jobId: string, resultUrl: string, maxWait: int, w: World)
    requires Covers(w, maxWait)
    ensures var t := Run(docId, jobId, resultUrl, maxWait, w);
      TriggerEmbedder in t <==> (exists k: nat :: PollsStatusAt(w, maxWait, k, "success")) && w.fetch.Fetched? && w.finalAck
    ensures multiset(Run(docId, jobId, resultUrl, maxWait, w))[TriggerEmbedder] <= 1
    ensures var t := Run(docId, jobId, resultUrl, maxWait, w);
      TriggerEmbedder in t ==>
        |t| >= 2 && t[|t| - 1] == TriggerEmbedder && TriggerEmbedder !in t[..|t| - 1] &&
        t[|t| - 2] == Write(docId, Succeeded(w.fetch.text), true)
  {
    var t := Run(docId, jobId, resultUrl, maxWait, w);
    EmbedsIff(w, maxWait);
    EmbedderInRun(docId, jobId, resultUrl, maxWait, w);
    if Embeds(w, maxWait) {
      var d := FirstEnd(w, maxWait);
      assert PollsStatusAt(w, maxWait, d, "success") by {
        FirstEndPasses(w, maxWait);
      }
      EmbedderIsLast(docId, jobId, resultUrl, maxWait, w, d, w.fetch.text);
      EmbedderCalledOnce(docId, jobId, resultUrl, maxWait, w, d, w.fetch.text);
    } else {
      assert TriggerEmbedder !in multiset(t);
    }
  }

  // ---------------------------------------------------------------------
  // Cost bound: a fixed 10-second sleep between loop tests

  /** Elapsed time starts at zero or later and grows by at least one sleep between loop tests. */
  predicate Paced(clock: seq<real>)
  {
    (|clock| > 0 ==> clock[0] >= 0.0) &&
    forall i :: 0 < i < |clock| ==> clock[i - 1] + PollInterval as real <= clock[i]
  }

  /** The number of status checks that fit before the deadline: ceil(maxWait / PollInterval). */
  function MaxChecks(maxWait: int): nat
  {
    if maxWait <= 0 then 0 else (maxWait + PollInterval - 1) / PollInterval
  }

  lemma {:induction false} PacedClockGrows(clock: seq<real>, i: nat)
    requires Paced(clock) && i < |clock|
    ensures clock[i] >= (PollInterval * i) as real
  {
    if i > 0 {
      PacedClockGrows(clock, i - 1);
    }
  }

  /** A paced script with `MaxChecks` polls and one reading more always covers a run. */
  lemma PacedScriptCovers(w: World, maxWait: int)
    requires Paced(w.clock) && |w.clock| > MaxChecks(maxWait) && |w.polls| >= MaxChecks(maxWait)
    ensures Covers(w, maxWait)
  {
    var k := MaxChecks(maxWait);
    PacedClockGrows(w.clock, k);
    assert EndsAt(w, maxWait, k);
  }

  /**
   * Bounded cost: with readings paced by the sleep, a run makes at most
   * ceil(maxWait / 10) status checks, 180 for the default deadline.
   */
  lemma CheckBudget(docId: string, jobId: string, resultUrl: string, maxWait: int, w: World)
    requires Covers(w, maxWait) && Paced(w.clock)
    ensures multiset(Run(docId, jobId, resultUrl, maxWait, w))[CheckJob(jobId)] <= MaxChecks(maxWait)
    ensures maxWait == DefaultMaxWait ==> multiset(Run(docId, jobId, resultUrl, maxWait, w))[CheckJob(jobId)] <= 180
  {
    var d := FirstEnd(w, maxWait);
    var first := [Write(docId, Working(jobId), w.workingAck)];
    var f := Finish(docId, jobId, resultUrl, maxWait, w);
    var k := MaxChecks(maxWait);
    RoundsLength(jobId, d);
    RoundsChecks(jobId, d);
    FinishShape(docId, jobId, resultUrl, maxWait, w);
    FirstEndPasses(w, maxWait);
    assert Run(docId, jobId, resultUrl, maxWait, w) == first + Rounds(jobId, d) + f;
    if k < d {
      PacedClockGrows(w.clock, k);
    }
    assert d <= k;
    if !TimedOut(w, maxWait) {
      PacedClockGrows(w.clock, d);
      assert PollInterval * d < maxWait;
    }
  }

  // ---------------------------------------------------------------------
  // The document row after a run

  /**
   * The row ends as the acknowledged writes leave it: the working write
   * sets the job id, the terminal write sets status and error (and content
   * on success) and never touches the job id. Once either write returned
   * true the row is consistent.
   */
  lemma StoredRecord(rec: Record, docId: string, jobId: string, resultUrl: string, maxWait: int, w: World)
    requires Covers(w, maxWait)
    ensures var afterWorking := if w.workingAck then Apply(rec, ToDict(Working(jobId))) else rec;
      StoreAfter(rec, Run(docId, jobId, resultUrl, maxWait, w))
        == if w.finalAck then Apply(afterWorking, ToDict(TerminalPayload(w, maxWait))) else afterWorking
    ensures JobIdKey !in ToDict(TerminalPayload(w, maxWait))
    ensures w.workingAck || w.finalAck ==> Consistent(StoreAfter(rec, Run(docId, jobId, resultUrl, maxWait, w)))
  {
    var t := Run(docId, jobId, resultUrl, maxWait, w);
    var working := Write(docId, Working(jobId), w.workingAck);
    var terminal := Write(docId, TerminalPayload(w, maxWait), w.finalAck);
    var afterWorking := if w.workingAck then Apply(rec, ToDict(Working(jobId))) else rec;
    var afterTerminal := if w.finalAck then Apply(afterWorking, ToDict(TerminalPayload(w, maxWait))) else afterWorking;
    ExactlyOneTerminalWrite(docId, jobId, resultUrl, maxWait, w);
    StoreAfterWrites(rec, t);
    assert [working, terminal][1..] == [terminal];
    assert [terminal][1..] == [];
    calc {
      StoreAfter(rec, t);
      StoreAfter(rec, [working, terminal]);
      StoreAfter(afterWorking, [terminal]);
      StoreAfter(afterTerminal, []);
      afterTerminal;
    }
    PayloadsKeepConsistent(rec, Working(jobId));
    PayloadsKeepConsistent(afterWorking, TerminalPayload(w, maxWait));
  }
}
