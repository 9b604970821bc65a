/**
 What the submission controller guarantees: first the effect of each event
 on its own, then invariants over arbitrary event sequences (deduplication,
 append-only records, the retry bound, the order of statuses).
 */
module ControllerProperties {
  import Decimal
  import opened SubmissionController

  // ----- One event at a time -----

  /** Submitting while a submission is in flight changes nothing and issues
      nothing: no new id, no counter reset, no status change. */
  lemma SubmitWhileInFlightIsIgnored(c: Controller, id: RequestId, p: Payload)
    requires c.inFlight
    ensures Step(c, Submit(id, p)).next == c
    ensures Step(c, Submit(id, p)).issued == None
  {
  }

  /** Submitting while idle, finished or failed starts a new cycle: the flag
      is set, the counter is 0, the status is pending, the records are kept,
      and exactly one attempt with the new id and the form payload is issued. */
  lemma SubmitStartsCycle(c: Controller, id: RequestId, p: Payload)
    requires !c.inFlight
    ensures var t := Step(c, Submit(id, p));
      && t.next.inFlight
      && t.next.retries == 0
      && t.next.status == Pending
      && t.next.message == "Submitting..."
      && t.next.records == c.records
      && t.issued == Some(Attempt(id, p))
      && t.next.outstanding == t.issued
  {
  }

  /** A 503 with retries left: the counter goes up by exactly one, the
      message shows the new count, the flag and the records stay, and the
      same attempt (same id, same payload) is issued again. */
  lemma RetryAfterUnavailable(c: Controller)
    requires c.outstanding.Some?
    requires c.retries < MAX_RETRIES
    ensures var t := Step(c, Rejected(503));
      && t.next.retries == c.retries + 1
      && t.next.status == Retrying
      && t.next.message == RetryMessage(t.next.retries)
      && t.next.inFlight == c.inFlight
      && t.next.records == c.records
      && t.issued == c.outstanding
      && t.next.outstanding == c.outstanding
  {
  }

  /** The retry message names the retry count, and nothing else: the count
      can be read back from it. */
  lemma RetryMessageNamesCount(m: nat, n: nat)
    ensures RetryMessage(m) == RetryMessage(n) <==> m == n
  {
    if RetryMessage(m) == RetryMessage(n) {
      var pre := "Retrying... (";
      assert Decimal.NatToString(m) == RetryMessage(m)[|pre|..|RetryMessage(m)| - 1];
      assert Decimal.NatToString(n) == RetryMessage(n)[|pre|..|RetryMessage(n)| - 1];
      Decimal.NatToStringInjective(m, n);
    }
  }

  /** Any other rejection, and a 503 once the retries are used up, ends the
      submission: status error, flag cleared, records kept, nothing issued. */
  lemma TerminalRejection(c: Controller, httpStatus: int)
    requires c.outstanding.Some?
    requires httpStatus != 503 || c.retries >= MAX_RETRIES
    ensures var t := Step(c, Rejected(httpStatus));
      && t.next.status == Error
      && t.next.message == "Failed after retries"
      && !t.next.inFlight
      && t.next.records == c.records
      && t.issued == None
      && t.next.outstanding == None
  {
  }

  /** A 200 ends the submission in success and clears the flag; the response
      data is appended exactly when no record has the attempt's id, and the
      records are left as they were otherwise. */
  lemma SuccessfulResolution(c: Controller, data: Record)
    requires c.outstanding.Some?
    ensures var t := Step(c, Resolved(200, data));
      var id := c.outstanding.value.requestId;
      && t.next.status == Success
      && t.next.message == "Submission successful"
      && !t.next.inFlight
      && t.issued == None
      && t.next.outstanding == None
      && (HasId(c.records, id) <==> t.next.records == c.records)
      && (!HasId(c.records, id) <==> t.next.records == c.records + [data])
  {
  }

  /** A resolution with any status but 200 changes nothing visible: status,
      message, flag, counter and records all stay. Only the attempt is over. */
  lemma OtherResolutionChangesNothing(c: Controller, httpStatus: int, data: Record)
    requires httpStatus != 200
    ensures var t := Step(c, Resolved(httpStatus, data));
      && t.next.status == c.status
      && t.next.message == c.message
      && t.next.inFlight == c.inFlight
      && t.next.retries == c.retries
      && t.next.records == c.records
      && t.next.outstanding == None
      && t.issued == None
  {
  }

  /** Every event keeps status, message, flag and counter in agreement. */
  lemma StepKeepsConsistent(c: Controller, e: Event)
    requires Consistent(c)
    ensures Consistent(Step(c, e).next)
  {
  }

  /** Records only grow, and by at most one entry at the end. */
  lemma StepAppendOnly(c: Controller, e: Event)
    ensures c.records <= Step(c, e).next.records
    ensures |Step(c, e).next.records| <= |c.records| + 1
  {
  }

  /** Statuses follow Idle -> Pending -> Retrying* -> Success | Error -> Pending. */
  lemma StepDirection(c: Controller, e: Event)
    requires Consistent(c)
    ensures Allowed(c.status, Step(c, e).next.status)
  {
  }

  // ----- Arbitrary event sequences -----

  lemma {:induction false} RunKeepsConsistent(c: Controller, es: seq<Event>)
    requires Consistent(c)
    ensures Consistent(Run(c, es).last)
    decreases |es|
  {
    if |es| > 0 {
      StepKeepsConsistent(c, es[0]);
      RunKeepsConsistent(Step(c, es[0]).next, es[1..]);
    }
  }

  /** In every reachable state the flag is set exactly while the status is
      pending or retrying, and the counter is at most MAX_RETRIES. */
  lemma ReachableInFlightIffBusy(es: seq<Event>)
    ensures Run(Init(), es).last.inFlight <==> Run(Init(), es).last.status.Busy()
    ensures Run(Init(), es).last.retries <= MAX_RETRIES
  {
    RunKeepsConsistent(Init(), es);
  }

  lemma {:induction false} RunKeepsDistinctIds(c: Controller, es: seq<Event>)
    requires DistinctIds(c.records)
    requires Honest(c, es)
    ensures DistinctIds(Run(c, es).last.records)
    decreases |es|
  {
    if |es| > 0 {
      RunKeepsDistinctIds(Step(c, es[0]).next, es[1..]);
    }
  }

  /** Deduplication: whatever the executor answers, as long as each response
      carries its attempt's request id, no two records share a request id,
      however many duplicate or late successes arrive. */
  lemma Dedup(es: seq<Event>)
    requires Honest(Init(), es)
    ensures DistinctIds(Run(Init(), es).last.records)
    ensures Valid(Run(Init(), es).last)
  {
    RunKeepsDistinctIds(Init(), es);
    RunKeepsConsistent(Init(), es);
  }

  /** Records are append-only over any run: the records before it are a prefix
      of the records after it. */
  lemma {:induction false} RunAppendOnly(c: Controller, es: seq<Event>)
    ensures c.records <= Run(c, es).last.records
    decreases |es|
  {
    if |es| > 0 {
      StepAppendOnly(c, es[0]);
      RunAppendOnly(Step(c, es[0]).next, es[1..]);
    }
  }

  /** Retry bound: while a submission is in flight, the attempts still to be
      issued before it settles are at most the retries left, and every one of
      them is the outstanding attempt again (same id, same payload). */
  lemma {:induction false} CycleAttemptsBound(c: Controller, es: seq<Event>)
    requires Consistent(c)
    requires c.inFlight
    ensures |CycleAttempts(c, es)| <= MAX_RETRIES - c.retries
    ensures forall i :: 0 <= i < |CycleAttempts(c, es)| ==> Some(CycleAttempts(c, es)[i]) == c.outstanding
    decreases |es|
  {
    if |es| > 0 {
      var t := Step(c, es[0]);
      StepKeepsConsistent(c, es[0]);
      if t.next.inFlight {
        CycleAttemptsBound(t.next, es[1..]);
        assert t.issued.Some? ==> t.next.retries == c.retries + 1;
        assert t.next.outstanding.Some? ==> t.next.outstanding == c.outstanding;
      }
    }
  }

  /** One submission issues at least one and at most MAX_RETRIES + 1 = 4
      attempts before it reaches a terminal status, all with its own id and payload. */
  lemma SubmissionAttemptBound(c: Controller, id: RequestId, p: Payload, es: seq<Event>)
    requires Consistent(c)
    requires !c.inFlight
    ensures 1 <= |CycleAttempts(c, [Submit(id, p)] + es)| <= MAX_RETRIES + 1
    ensures forall i :: 0 <= i < |CycleAttempts(c, [Submit(id, p)] + es)| ==>
      CycleAttempts(c, [Submit(id, p)] + es)[i] == Attempt(id, p)
  {
    var es' := [Submit(id, p)] + es;
    assert es'[0] == Submit(id, p) && es'[1..] == es;
    var t := Step(c, Submit(id, p));
    CycleAttemptsBound(t.next, es);
  }

  /** After the first submission the status never returns to idle. */
  lemma {:induction false} RunNeverReturnsToIdle(c: Controller, es: seq<Event>)
    requires c.status != Idle
    ensures Run(c, es).last.status != Idle
    decreases |es|
  {
    if |es| > 0 {
      RunNeverReturnsToIdle(Step(c, es[0]).next, es[1..]);
    }
  }

  /** A controller in flight with no attempt outstanding ignores every later
      event: submissions are refused by the guard and no outcome can arrive. */
  lemma {:induction false} StrandedIgnoresEverything(c: Controller, es: seq<Event>)
    requires c.inFlight
    requires c.outstanding == None
    ensures Run(c, es) == Trace(c, [])
    decreases |es|
  {
    if |es| > 0 {
      assert Step(c, es[0]).next == c;
      StrandedIgnoresEverything(c, es[1..]);
    }
  }

  /** A resolution with a status other than 200 strands the controller: it
      stays in flight with nothing outstanding, and no later event, including
      a new submission, changes its state or issues an attempt. */
  lemma Non200ResolutionStrands(c: Controller, httpStatus: int, data: Record, es: seq<Event>)
    requires Consistent(c)
    requires c.outstanding.Some?
    requires httpStatus != 200
    ensures var n := Step(c, Resolved(httpStatus, data)).next;
      n.inFlight && n.status.Busy() && Run(n, es) == Trace(n, [])
  {
    StrandedIgnoresEverything(Step(c, Resolved(httpStatus, data)).next, es);
  }

  /** While waiting, the outstanding attempt's id is not yet recorded. */
  predicate AwaitingFresh(c: Controller) {
    c.outstanding.Some? ==> !HasId(c.records, c.outstanding.value.requestId)
  }

  lemma {:induction false} RunKeepsAwaitingFresh(c: Controller, es: seq<Event>)
    requires AwaitingFresh(c)
    requires FreshSubmits(c, es)
    ensures AwaitingFresh(Run(c, es).last)
    decreases |es|
  {
    if |es| > 0 {
      var n := Step(c, es[0]).next;
      assert n.outstanding.Some? && n.outstanding != c.outstanding ==>
        es[0].Submit? && !c.inFlight && n.records == c.records;
      RunKeepsAwaitingFresh(n, es[1..]);
    }
  }

  /** With freshly minted ids, a success is never lost to deduplication: the
      first 200 of a submission appends its data. */
  lemma FreshSuccessIsRecorded(es: seq<Event>, data: Record)
    requires FreshSubmits(Init(), es)
    requires Run(Init(), es).last.outstanding.Some?
    ensures var c := Run(Init(), es).last;
      Step(c, Resolved(200, data)).next.records == c.records + [data]
  {
    RunKeepsAwaitingFresh(Init(), es);
  }
}
