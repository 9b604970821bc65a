/**
 Concrete runs of the controller: an immediate success, three retries then a
 success, retries exhausted, a double submit, and a run showing why
 deduplication needs each response to carry its attempt's id.
 */
module Scenarios {
  import opened SubmissionController

  const P: Payload := Payload("user@example.com", "25")
  const Q: Payload := Payload("other@example.com", "40")

  /** The status after each event of a run. */
  function Statuses(c: Controller, es: seq<Event>): (r: seq<Status>)
    ensures |r| == |es|
    decreases |es|
  {
    if |es| == 0 then []
    else
      var n := Step(c, es[0]).next;
      [n.status] + Statuses(n, es[1..])
  }

  /** A run that starts with event e is e's step followed by the run of the rest. */
  lemma RunCons(c: Controller, e: Event, es: seq<Event>)
    ensures var t := Step(c, e);
      Run(c, [e] + es) == Trace(Run(t.next, es).last, ToSeq(t.issued) + Run(t.next, es).attempts)
  {
  }

  /** Immediate success: a submit followed by a 200 records the payload with its id. */
  lemma ScenarioImmediateSuccess()
    ensures var tr := Run(Init(), [Submit(1, P), Resolved(200, RecordOf(1, P))]);
      && tr.last.status == Success
      && tr.last.records == [Record(1, "user@example.com", "25")]
      && tr.attempts == [Attempt(1, P)]
  {
    var c1 := Step(Init(), Submit(1, P)).next;
    RunCons(c1, Resolved(200, RecordOf(1, P)), []);
    RunCons(Init(), Submit(1, P), [Resolved(200, RecordOf(1, P))]);
  }

  /** A submission answered by three 503s, then a 200. */
  function ThreeRetriesThenSuccess(): seq<Event> {
    [Submit(1, P), Rejected(503), Rejected(503), Rejected(503), Resolved(200, RecordOf(1, P))]
  }

  /** The states that submission passes through before its last event: pending,
      then retrying with counts 1, 2 and 3, always waiting for the same attempt. */
  lemma ScenarioRetryStates()
    ensures var a := Some(Attempt(1, P));
      var c1 := Step(Init(), Submit(1, P)).next;
      var c2 := Step(c1, Rejected(503)).next;
      var c3 := Step(c2, Rejected(503)).next;
      && c1 == Controller(Pending, SUBMITTING_MESSAGE, true, 0, [], a)
      && c2 == Controller(Retrying, RetryMessage(1), true, 1, [], a)
      && c3 == Controller(Retrying, RetryMessage(2), true, 2, [], a)
      && Step(c3, Rejected(503)).next == Controller(Retrying, RetryMessage(3), true, 3, [], a)
  {
  }

  /** Three retries, then success: three 503s then a 200 go pending -> retrying (1, 2, 3) ->
      success, issue four attempts with one id, and record the payload once. */
  lemma ScenarioThreeRetriesThenSuccess()
    ensures Statuses(Init(), ThreeRetriesThenSuccess()) == [Pending, Retrying, Retrying, Retrying, Success]
    ensures Run(Init(), ThreeRetriesThenSuccess()).attempts == [Attempt(1, P), Attempt(1, P), Attempt(1, P), Attempt(1, P)]
    ensures Run(Init(), ThreeRetriesThenSuccess()).last.records == [RecordOf(1, P)]
  {
  }

  /** The retry bound is reached: one submission, MAX_RETRIES + 1 attempts. */
  lemma ScenarioAttemptBoundIsReached()
    ensures |CycleAttempts(Init(), ThreeRetriesThenSuccess())| == MAX_RETRIES + 1
  {
  }

  /** Retries exhausted: a fourth 503 exceeds the retry budget and ends in error
      with nothing recorded. */
  lemma ScenarioRetriesExhausted()
    ensures var tr := Run(Init(), [Submit(1, P), Rejected(503), Rejected(503), Rejected(503), Rejected(503)]);
      && tr.last.status == Error
      && tr.last.message == "Failed after retries"
      && !tr.last.inFlight
      && tr.last.records == []
      && |tr.attempts| == 4
  {
    var no := Rejected(503);
    var c1 := Step(Init(), Submit(1, P)).next;
    var c2 := Step(c1, no).next;
    var c3 := Step(c2, no).next;
    var c4 := Step(c3, no).next;
    assert c4.retries == 3 && c4.outstanding == Some(Attempt(1, P));
    RunCons(c4, no, []);
    RunCons(c3, no, [no]);
    RunCons(c2, no, [no, no]);
    RunCons(c1, no, [no, no, no]);
    RunCons(Init(), Submit(1, P), [no, no, no, no]);
  }

  /** Double submit: a second submit while the first is pending has no effect. */
  lemma ScenarioDoubleSubmit()
    ensures Run(Init(), [Submit(1, P), Submit(2, Q)]) == Run(Init(), [Submit(1, P)])
  {
    var c1 := Step(Init(), Submit(1, P)).next;
    RunCons(c1, Submit(2, Q), []);
    RunCons(Init(), Submit(1, P), [Submit(2, Q)]);
    RunCons(Init(), Submit(1, P), []);
  }

  /** If the executor answered with data naming another request id, the
      check on the attempt's id would not stop a duplicate: two cycles whose
      responses both carry id 7 record two entries with id 7. */
  lemma DedupNeedsEchoedId()
    ensures var es := [Submit(1, P), Resolved(200, RecordOf(7, P)), Submit(2, Q), Resolved(200, RecordOf(7, Q))];
      !Honest(Init(), es)
    ensures var es := [Submit(1, P), Resolved(200, RecordOf(7, P)), Submit(2, Q), Resolved(200, RecordOf(7, Q))];
      !DistinctIds(Run(Init(), es).last.records)
  {
    var r1 := Resolved(200, RecordOf(7, P));
    var r2 := Resolved(200, RecordOf(7, Q));
    var c1 := Step(Init(), Submit(1, P)).next;
    var c2 := Step(c1, r1).next;
    var c3 := Step(c2, Submit(2, Q)).next;
    assert c2.records == [RecordOf(7, P)];
    assert !HasId(c2.records, 2);
    RunCons(c3, r2, []);
    RunCons(c2, Submit(2, Q), [r2]);
    RunCons(c1, r1, [Submit(2, Q), r2]);
    RunCons(Init(), Submit(1, P), [r1, Submit(2, Q), r2]);
    var recs := Run(Init(), [Submit(1, P), r1, Submit(2, Q), r2]).last.records;
    assert recs == [RecordOf(7, P), RecordOf(7, Q)];
    assert recs[0].requestId == recs[1].requestId;
    var es := [Submit(1, P), r1, Submit(2, Q), r2];
    assert es[0] == Submit(1, P) && es[1..] == [r1, Submit(2, Q), r2];
    assert !EchoesId(c1, r1);
    assert [r1, Submit(2, Q), r2][0] == r1;
    assert !Honest(c1, [r1, Submit(2, Q), r2]);
  }
}
