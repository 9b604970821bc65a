# Idempotent submission controller — Dafny model

This project models the submission controller of a payment form (`src/App.jsx`).
The user submits an email and an amount. The controller:

- refuses a second submission while one is in flight;
- mints one request id per submission and sends the payload to an executor;
- retries after a 503 ("temporarily unavailable") up to `MAX_RETRIES = 3` times, always with the same request id and payload;
- on a 200, appends the response data to an ordered record list, unless a record with that request id is already there.

In the source, this state lives in React hooks and refs and is changed from promise callbacks. Here it is one immutable `Controller` value:

- status, message, in-flight flag, retry counter and records;
- `outstanding`, the attempt whose outcome the controller is waiting for. This is the pending promise together with the id and payload its callbacks close over.

Each callback is one `Event`:

- the user submits (`Submit`);
- the outstanding attempt resolves with an HTTP status and data (`Resolved`);
- the outstanding attempt rejects with an HTTP status (`Rejected`).

`Step` is the pure transition for one event. It returns the next state and the attempt issued, if any. `Run` folds `Step` over an event sequence and collects every attempt issued. The executor is not modelled. Its answer is the event's parameters, so every property below holds for every answer sequence. The one exception is deduplication, which assumes that each successful (200) response carries its attempt's request id (`Honest`).

Files:

- `decimal.dfy` (module `Decimal`): the decimal rendering of the retry count in `Retrying... (n)`, and its inverse.
- `controller.dfy` (module `SubmissionController`): the data model, the transitions, runs over event sequences, and the invariants.
- `properties.dfy` (module `ControllerProperties`): what each event does, and invariants over arbitrary event sequences.
- `scenarios.dfy` (module `Scenarios`): concrete runs. These are an immediate success, three retries then success, retries exhausted, and a double submit. A last run shows that deduplication relies on the executor echoing the request id.

Two facts about the code as written, both proved:

- `Non200ResolutionStrands`: a resolution whose status is not 200 is ignored by the success handler (line 49). It does not clear the in-flight flag. After it, the controller is in flight with no attempt outstanding. Every later submit is refused by the guard at line 80, so the form never accepts another submission. The reference executor resolves only with 200, so with it this cannot happen; a real transport that resolves on other statuses would hit it.
- `DedupNeedsEchoedId`: the duplicate check (line 52) looks up the request id of the attempt, but line 54 appends the response's own data. Deduplication therefore holds only when the response carries its attempt's request id. The reference executor guarantees this by returning `{requestId, ...payload}` (lines 12, 27). `Dedup` states this assumption as `Honest`, and `DedupNeedsEchoedId` shows a run without it that records two entries with the same id.

Three behaviours of the code differ from what an idempotent submission controller is commonly meant to do. The model follows the code:

- Every terminal rejection reports "Failed after retries", including a non-503 rejection with retries left. The code has no separate message that gives the terminal failure's reason.
- A resolution with a status other than 200 is neither a success nor a failure. See the first point above.
- The status never goes back to idle after the first submission. Success and error are left only by the next submit, and the records are never cleared.

## Model

| member | source | states |
|---|---|---|
| SubmissionController.Init | src/App.jsx:36-43 | The mounted controller has status idle, an empty message, counter 0, no records, no attempt outstanding, and the flag clear. It satisfies the controller invariant. |
| SubmissionController.FindById | src/App.jsx:52 | The lookup finds a record exactly when some record carries the id. What it returns is a record of the list with that id. |
| SubmissionController.AddRecord | src/App.jsx:51-55 | The record update returns the list unchanged when a record has the id. Otherwise it returns the list with exactly the response data appended at the end. It keeps ids distinct when the data carries the attempt's id. |
| Decimal.NatToString | src/App.jsx:66 | The retry count is rendered as digits only, without a leading zero. |
| Decimal.ParseNatToString | src/App.jsx:66 | Reading the rendered count back gives the count (round trip). |
| ControllerProperties.RetryMessageNamesCount | src/App.jsx:66 | Two retry messages are equal exactly when their counts are equal, so the message identifies the retry number. |
| ControllerProperties.SubmitWhileInFlightIsIgnored | src/App.jsx:80 | A submit while in flight leaves the whole state unchanged and issues no attempt: no new id, no counter reset, no status change. |
| ControllerProperties.SubmitStartsCycle | src/App.jsx:82-94 | A submit while not in flight sets the flag, resets the counter to 0, and sets status pending with "Submitting...". It keeps the records and issues exactly one attempt with the new id and payload. |
| ControllerProperties.RetryAfterUnavailable | src/App.jsx:63-67 | A 503 with the counter below 3 raises the counter by exactly one and sets status retrying. The message shows the new count. The flag and records stay, and the same attempt (id and payload) is issued again. |
| ControllerProperties.TerminalRejection | src/App.jsx:68-73 | A non-503 rejection, or a 503 when the counter is 3, sets status error with "Failed after retries". It clears the flag, keeps the records and issues nothing. |
| ControllerProperties.SuccessfulResolution | src/App.jsx:49-60 | A 200 sets status success with "Submission successful", clears the flag, and leaves nothing outstanding. The records are unchanged if and only if the attempt's id is already recorded. Otherwise the data is appended at the end. |
| ControllerProperties.OtherResolutionChangesNothing | src/App.jsx:49-61 | A resolution with any status but 200 leaves status, message, flag, counter and records as they were. |
| ControllerProperties.StepKeepsConsistent | src/App.jsx:45-95 | Every event preserves the invariant. The flag is set exactly while the status is pending or retrying, the counter is at most 3, and the message matches the status. |
| ControllerProperties.StepAppendOnly | src/App.jsx:51-55 | No event removes or reorders records. At most one is appended at the end. |
| ControllerProperties.StepDirection | src/App.jsx:45-95 | Statuses only move idle → pending → retrying* → success or error → pending (on the next submit). |
| ControllerProperties.RunKeepsConsistent | src/App.jsx:45-95 | The invariant holds after any sequence of events. |
| ControllerProperties.ReachableInFlightIffBusy | src/App.jsx:57-91 | In every reachable state the flag is set if and only if the status is pending or retrying, and the counter never exceeds MAX_RETRIES. |
| ControllerProperties.RunKeepsDistinctIds | src/App.jsx:51-55 | Distinct record ids are preserved by any sequence of events whose 200 responses echo their attempt's id. |
| ControllerProperties.Dedup | src/App.jsx:51-55 | From the initial state, no event sequence whose 200 responses echo their id records two entries with the same request id. This covers duplicate and late successes. The reached state also satisfies the whole invariant. |
| ControllerProperties.RunAppendOnly | src/App.jsx:51-55 | Over any event sequence, the earlier records are a prefix of the later ones. |
| ControllerProperties.CycleAttemptsBound | src/App.jsx:63-67 | While in flight, at most MAX_RETRIES minus the current count further attempts are issued before the submission settles. Each of them is the outstanding attempt again. |
| ControllerProperties.SubmissionAttemptBound | src/App.jsx:3-94 | One submission issues between 1 and MAX_RETRIES + 1 = 4 attempts before it settles, all with its own id and payload. |
| ControllerProperties.RunNeverReturnsToIdle | src/App.jsx:36-91 | Once the status has left idle, no event sequence brings it back. |
| ControllerProperties.StrandedIgnoresEverything | src/App.jsx:80 | A controller in flight with nothing outstanding is unchanged by every event sequence and issues no attempt. |
| ControllerProperties.Non200ResolutionStrands | src/App.jsx:49-61 | After a resolution with a status other than 200, the controller stays in flight and every later sequence of events leaves it unchanged. |
| ControllerProperties.RunKeepsAwaitingFresh | src/App.jsx:84-94 | If every submission uses an id not yet recorded, the attempt being waited for is never already recorded. |
| ControllerProperties.FreshSuccessIsRecorded | src/App.jsx:51-55 | With fresh ids, a 200 for the outstanding attempt always appends its data. A success is never lost to deduplication. |
| Scenarios.ScenarioImmediateSuccess | src/App.jsx:45-94 | Submit then 200: status success, the one record is the payload with its id, one attempt. |
| Scenarios.ScenarioRetryStates | src/App.jsx:63-67 | Three 503s take the controller through pending and retrying 1, 2, 3, with the message showing each count. The same attempt stays outstanding throughout. |
| Scenarios.ScenarioThreeRetriesThenSuccess | src/App.jsx:45-94 | Three 503s then a 200: statuses pending, retrying ×3, success; four attempts with one id; the payload recorded once. |
| Scenarios.ScenarioAttemptBoundIsReached | src/App.jsx:63-67 | The bound of four attempts per submission is attained. |
| Scenarios.ScenarioRetriesExhausted | src/App.jsx:63-73 | Four 503s: status error, "Failed after retries", flag clear, no records, four attempts. |
| Scenarios.ScenarioDoubleSubmit | src/App.jsx:80 | A second submit while pending has no effect on the state or the attempts. |
| Scenarios.DedupNeedsEchoedId | src/App.jsx:51-55 | If responses named an id other than their attempt's, two submissions could record two entries with the same id. |

## Left out

- `mockApi`, the reference executor (src/App.jsx:5-31): it draws outcomes with `Math.random` and delays them with `setTimeout` and floating-point delays. Its outcome is an event parameter instead: `Resolved(status, data)` or `Rejected(status)`. Two of its promises are kept. First, a 200's data carries the request id (`Honest`); only deduplication relies on it. Second, a response is an object with a status, and a 200's data is an object; the event types assume this (lines 12, 19, 27).
- A resolution with `null` or `undefined` is not a `Resolved` event. Reading `response.status` at line 49 throws inside the `try`, and the `catch` at line 62 reads `error.status` as `undefined`, so lines 69-72 run. That is the same transition as `Rejected(s)` with s other than 503, and the model expresses it only that way. `OnResolved` never reaches error itself.
- A 200 whose `data` is `null` or `undefined` is not modelled. It is appended at line 54. The next render (line 137) and any later `find` (line 52) then throw reading `requestId`, and no controller handler catches that. A 200 whose data is a primitive, such as a number, is not modelled either. It is appended and never matches a later lookup, because its `requestId` reads as `undefined`. `Record` can express neither.
- `crypto.randomUUID()` (line 86): the id is supplied by the caller with the `Submit` event. Freshness is the `FreshSubmits` trace predicate and is assumed only where a property needs it.
- The duplicated in-flight state (`isSubmitting` and `isSubmittingRef`, lines 39, 41, 59-60, 71-72, 82-83) is one flag. `requestIdRef` (lines 42, 87) is written but never read, so it is not modelled.
- Promise scheduling and `async`/`await`: each callback is one sequential event. Only one attempt is outstanding at a time, because a retry is issued only inside the previous attempt's rejection handler. An outcome event with no attempt outstanding has no callback to run, so it leaves the state unchanged.
- A rejection with an object that has no `status` field is modelled as a rejection with a status other than 503. The code sends both to the error branch at line 68.
- A rejection with `null` or `undefined` is not modelled. Reading `error.status` at line 63 then throws inside the `catch`, so no setter runs. The flag stays set and the form is stranded, as after `Non200ResolutionStrands`. The reference executor always rejects with an object (line 19).
- The form inputs, HTML validation, `preventDefault` and rendering (lines 34-35, 78, 97-143): presentation only.
