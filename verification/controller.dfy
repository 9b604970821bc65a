/**
 The submission controller of the payment form: an in-flight guard, a bounded
 retry loop that reuses one request id, and a record list deduplicated by
 request id.

 The React component keeps this state in hooks and refs and changes it from
 promise callbacks. Here the state is one immutable value. Every callback is
 one event, and `Step` is the pure transition each event causes. The executor
 that performs an attempt is not modelled. Its outcome arrives as an event
 parameter: resolved with an HTTP status and a data record, or rejected with
 an HTTP status.
 */
module SubmissionController {
  import Decimal

  /** How many times one submission is retried after a 503 (App.jsx line 3). */
  const MAX_RETRIES: nat := 3

  const HTTP_OK: int := 200
  const HTTP_UNAVAILABLE: int := 503

  const IDLE_MESSAGE: string := ""
  const SUBMITTING_MESSAGE: string := "Submitting..."
  const SUCCESS_MESSAGE: string := "Submission successful"
  const FAILURE_MESSAGE: string := "Failed after retries"

  /** The message shown after the n-th retry has been issued. */
  function RetryMessage(n: nat): (msg: string) {
    "Retrying... (" + Decimal.NatToString(n) + ")"
  }

  datatype Option<+T> = None | Some(value: T)

  /** The status the form displays. */
  datatype Status = Idle | Pending | Retrying | Success | Error {
    /** Pending and Retrying are the statuses of a submission still in flight. */
    predicate Busy() {
      Pending? || Retrying?
    }
  }

  /** The identity of one submission, shared by all of its attempts. The
      source mints a random UUID; here the caller supplies it with the event. */
  type RequestId = nat

  /** The form fields captured when the user submits. */
  datatype Payload = Payload(email: string, amount: string)

  /** One entry of the record list: the data of a successful response. */
  datatype Record = Record(requestId: RequestId, email: string, amount: string)

  /** The data the reference executor returns on success: the request id
      followed by the payload fields. */
  function RecordOf(id: RequestId, p: Payload): (r: Record) {
    Record(id, p.email, p.amount)
  }

  /** One call of the executor. */
  datatype Attempt = Attempt(requestId: RequestId, payload: Payload)

  /** The controller state. `outstanding` is the attempt whose outcome the
      controller is waiting for: the pending promise and the request id and
      payload its callbacks close over. */
  datatype Controller = Controller(
    status: Status,
    message: string,
    inFlight: bool,
    retries: nat,
    records: seq<Record>,
    outstanding: Option<Attempt>)

  /** What can happen to the controller: the user submits the form, or the
      outstanding attempt resolves or rejects. */
  datatype Event =
    | Submit(id: RequestId, payload: Payload)
    | Resolved(httpStatus: int, data: Record)
    | Rejected(httpStatus: int)

  /** The state after an event, and the attempt the event issued, if any. */
  datatype Transition = Transition(next: Controller, issued: Option<Attempt>)

  /** The state the component mounts with. */
  function Init(): (c: Controller)
    ensures Valid(c)
    ensures c.status == Idle && c.message == IDLE_MESSAGE && c.retries == 0
    ensures !c.inFlight && c.records == [] && c.outstanding == None
  {
    Controller(Idle, IDLE_MESSAGE, false, 0, [], None)
  }

  // ----- The record list -----

  predicate HasId(records: seq<Record>, id: RequestId) {
    exists i :: 0 <= i < |records| && records[i].requestId == id
  }

  /** No two records share a request id. */
  predicate DistinctIds(records: seq<Record>) {
    forall i, j :: 0 <= i < j < |records| ==> records[i].requestId != records[j].requestId
  }

  /** A record with the given id, if there is one; `Array.prototype.find`
      returns the first, and the caller only tests whether one was found. */
  function FindById(records: seq<Record>, id: RequestId): (r: Option<Record>)
    ensures r.Some? <==> HasId(records, id)
    ensures r.Some? ==> r.value in records && r.value.requestId == id
    decreases |records|
  {
    if |records| == 0 then None
    else if records[0].requestId == id then Some(records[0])
    else
      var r := FindById(records[1..], id);
      assert forall i :: 0 < i < |records| ==> records[i] == records[1..][i - 1];
      r
  }

  /** The record-list update of a successful attempt with request id `id`
      whose response carried `data`: unchanged when a record with that id is
      already present, otherwise `data` appended at the end. */
  function AddRecord(records: seq<Record>, id: RequestId, data: Record): (r: seq<Record>)
    ensures records <= r
    ensures |r| <= |records| + 1
    ensures |r| == |records| + 1 <==> !HasId(records, id)
    ensures HasId(records, id) ==> r == records
    ensures !HasId(records, id) ==> r == records + [data]
    ensures DistinctIds(records) && data.requestId == id ==> DistinctIds(r)
  {
    if FindById(records, id).Some? then records else records + [data]
  }

  // ----- Transitions -----

  /** The form's submit handler: ignored while a submission is in flight,
      otherwise starts a new cycle and issues its first attempt. */
  function HandleSubmit(c: Controller, id: RequestId, p: Payload): (t: Transition) {
    if c.inFlight then Transition(c, None)
    else
      var a := Attempt(id, p);
      Transition(
        c.(inFlight := true, retries := 0, status := Pending,
           message := SUBMITTING_MESSAGE, outstanding := Some(a)),
        Some(a))
  }

  /** The outstanding attempt resolved. Only status 200 has an effect. */
  function OnResolved(c: Controller, httpStatus: int, data: Record): (t: Transition) {
    match c.outstanding
    case None => Transition(c, None)
    case Some(a) =>
      if httpStatus == HTTP_OK then
        Transition(
          c.(records := AddRecord(c.records, a.requestId, data),
             status := Success, message := SUCCESS_MESSAGE,
             inFlight := false, outstanding := None),
          None)
      else
        Transition(c.(outstanding := None), None)
  }

  /** The outstanding attempt rejected: a 503 with retries left re-issues the
      same attempt, anything else ends the submission in error. */
  function OnRejected(c: Controller, httpStatus: int): (t: Transition) {
    match c.outstanding
    case None => Transition(c, None)
    case Some(a) =>
      if httpStatus == HTTP_UNAVAILABLE && c.retries < MAX_RETRIES then
        var n := c.retries + 1;
        Transition(c.(retries := n, status := Retrying, message := RetryMessage(n)), Some(a))
      else
        Transition(
          c.(status := Error, message := FAILURE_MESSAGE,
             inFlight := false, outstanding := None),
          None)
  }

  function Step(c: Controller, e: Event): (t: Transition) {
    match e
    case Submit(id, p) => HandleSubmit(c, id, p)
    case Resolved(s, data) => OnResolved(c, s, data)
    case Rejected(s) => OnRejected(c, s)
  }

  // ----- Runs over event sequences -----

  /** The final state of a run and every attempt it issued, in order. */
  datatype Trace = Trace(last: Controller, attempts: seq<Attempt>)

  function ToSeq<T>(o: Option<T>): (s: seq<T>) {
    match o
    case None => []
    case Some(x) => [x]
  }

  function Run(c: Controller, es: seq<Event>): (tr: Trace)
    decreases |es|
  {
    if |es| == 0 then Trace(c, [])
    else
      var t := Step(c, es[0]);
      var rest := Run(t.next, es[1..]);
      Trace(rest.last, ToSeq(t.issued) + rest.attempts)
  }

  /** The attempts issued by `es` from `c` up to and including the event after
      which the controller is no longer in flight. */
  function CycleAttempts(c: Controller, es: seq<Event>): (attempts: seq<Attempt>)
    decreases |es|
  {
    if |es| == 0 then []
    else
      var t := Step(c, es[0]);
      ToSeq(t.issued) + (if t.next.inFlight then CycleAttempts(t.next, es[1..]) else [])
  }

  // ----- Invariants -----

  /** What holds of every state the controller reaches, whatever the executor
      answers: status, message, flag and retry counter agree with each other. */
  predicate Consistent(c: Controller) {
    && c.retries <= MAX_RETRIES
    && (c.inFlight <==> c.status.Busy())
    && (c.outstanding.Some? ==> c.inFlight)
    && (c.status == Idle ==>
          c.message == IDLE_MESSAGE && c.retries == 0 && c.records == [] && c.outstanding == None)
    && (c.status == Pending ==> c.message == SUBMITTING_MESSAGE && c.retries == 0)
    && (c.status == Retrying ==> c.message == RetryMessage(c.retries) && c.retries >= 1)
    && (c.status == Success ==> c.message == SUCCESS_MESSAGE)
    && (c.status == Error ==> c.message == FAILURE_MESSAGE)
  }

  predicate Valid(c: Controller) {
    Consistent(c) && DistinctIds(c.records)
  }

  /** The executor's side of the contract: a successful response names the
      request id of the attempt it answers, as the reference executor's `{requestId, ...payload}` does. */
  predicate EchoesId(c: Controller, e: Event) {
    e.Resolved? && e.httpStatus == HTTP_OK && c.outstanding.Some? ==> e.data.requestId == c.outstanding.value.requestId
  }

  /** Every response in the run echoes its attempt's request id. */
  predicate Honest(c: Controller, es: seq<Event>)
    decreases |es|
  {
    |es| == 0 || (EchoesId(c, es[0]) && Honest(Step(c, es[0]).next, es[1..]))
  }

  /** Every submission the run starts uses an id no record carries yet, as a
      freshly minted UUID does. */
  predicate FreshSubmits(c: Controller, es: seq<Event>)
    decreases |es|
  {
    |es| == 0 ||
    ((es[0].Submit? && !c.inFlight ==> !HasId(c.records, es[0].id))
     && FreshSubmits(Step(c, es[0]).next, es[1..]))
  }

  /** The order in which statuses may follow each other:
      Idle -> Pending -> Retrying* -> Success | Error -> Pending (next submit). */
  predicate Allowed(from: Status, to: Status) {
    || from == to
    || (to == Pending && !from.Busy())
    || (from == Pending && to == Retrying)
    || (from.Busy() && (to == Success || to == Error))
  }
}
