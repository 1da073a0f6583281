# rc-client `send`: a verified model of the retry state machine

This project models `Client.prototype.send` of the Node.js rc-client
(`index.js`), together with the two constructor fields it depends on: the
retry budget `options.retry` (default 0) and the client-level counter
`_retries`. A `send` normalises its arguments. It then asks the signature
provider for an authorization header and opens one socket. On `open` it
writes the command with its options. It keeps the last inbound message as
the response and the last socket error as the error. On `close` it either
re-enters `send` (a retry) or zeroes `_retries` and calls
`callback(error, response)`.

The model is an event-driven state machine over a script of events
(`RcClient.Event`):

- `AuthReply(err, header)`: the signature provider calling back. Its `err`
  is tested with JavaScript truthiness, as `if (err)` does.
- `Open`, `Message(payload)`, `SocketError(err)`, `Close`: the socket's events.

The phases are `Authenticating`, `Live(connected, error, response)` (the
attempt's locals) and `Finished`. An event that cannot occur in a phase
leaves the state unchanged. Examples are a socket event while the signature
is pending, or anything after the callback has fired. An attempt ends at
its `close`. A script with no `close` leaves the send pending, because the
source has no timeout. Real (non-ghost) counters record:

- the sockets created;
- the messages written;
- the `socket.close()` requests;
- every callback invocation.

The retry condition is modelled as written (`RetryGuard`). `&&`
short-circuits, and `_retries++` is evaluated only when the socket never
opened and the budget is positive. When the comparison then fails, the
counter is first incremented and afterwards zeroed. An authentication
failure returns before the zeroing, so a failure during a retry leaves
`_retries` non-zero. The model keeps this: the next `send` on the same
client gets fewer attempts (`Scenarios.AuthFailureDuringRetryShrinksNextSend`).

A failed send can report `(null, null)`: there is no generic
connect-failure error. This happens when the last socket closes without
opening and without an error event, or when a socket opens and closes
before any message arrives.

Modules: `Budget` (the attempt-bound arithmetic), `JsValues` (the JavaScript values, the `null`-or-value slot and lodash
type tests), `Arguments` (normalisation), `RcClient` (the machine),
`Attempts` (whole-attempt results and chaining), `Guarantees` (the
invariant and the top-level `Send`), `Scenarios` (sequences of sends and a
worked budget-2 run).

## Model

| member | source | states |
|---|---|---|
| Arguments.Normalize | index.js:55-66 | a function `options` becomes the callback and the options become `{}`, dropping the third argument; a non-plain `options` becomes `{}`; a non-function callback becomes `_.noop` |
| Arguments.NormalizeIdempotent | index.js:55-66 | normalising already-normalised arguments returns them unchanged, so the retry's re-entry into `send` keeps the same options and callback |
| RcClient.NewClient | index.js:18-49 | a new client has `_retries` 0, an empty authorization header and budget 0 unless a plain options object supplies a numeric `retry` |
| RcClient.RetryGuard | index.js:111 | the guard says retry exactly when the socket never opened, the budget is positive and the pre-increment counter is below it; the counter is incremented exactly when the first two conjuncts hold |
| RcClient.OnClose | index.js:110-120 | a close retries if and only if the guard holds; a retry advances `_retries` by one and calls nothing; otherwise `_retries` is 0 and the callback receives this attempt's `error` and `response` once |
| RcClient.Step | index.js:71-120 | one event never calls back twice; a signature reply opens a socket exactly when its `err` is falsy and otherwise finishes the send; it calls back exactly when the send finishes, with the request's callback; a socket is created only on a successful signature and starts with fresh locals; only `open` writes, and it writes the request; each message requests a close; a finished send ignores every event |
| RcClient.Run | index.js:71-120 | over any script the callback list grows by at most one entry, only when the send finishes, and a finished send is unaffected by later events |
| RcClient.Start | index.js:54-69 | a send starts authenticating with no sockets, no writes and no callback yet, on the client's current counter, carrying the command with the normalised options and callback |
| Attempts.LiveSegment | index.js:85-108 | until the close, an attempt's `connected` is set by any `open`, `error` equals the last socket error and `response` the last message, a text payload being parsed before it becomes the response and a structured one used as it arrived (reference definitions scanning from the end); one write per `open` |
| Attempts.AttemptOutcome | index.js:71-120 | one authenticated attempt creates one socket and stores the header; at its close it retries if and only if the socket never opened and the counter is below a positive budget, otherwise it calls back with that attempt's last error and last response only |
| Attempts.OpenedAttemptIsTerminal | index.js:85-120 | an attempt whose socket fired `open` is never retried, whatever the budget and whether or not a message arrived |
| Attempts.AuthFailureIsFinal | index.js:71-75 | a failed signature calls back with `(err, null)`, creates no socket, leaves `_retries` as it was, and no later event changes anything |
| Attempts.RetriesExhausted | index.js:110-119 | when no socket opens, a send starting at counter k with budget N creates exactly max(N - k, 0) + 1 sockets, then calls back once with the last attempt's locals and leaves the counter at 0 |
| Attempts.EnoughAttemptsFinish | index.js:110-120 | given max(N - k, 0) + 1 attempts that each end in a close or an auth failure, the send finishes and calls back exactly once |
| Guarantees.StepGood | index.js:71-120 | every event preserves the invariant: at most one callback, one exactly when finished, only the request written, the counter advanced once per retried socket and bounded by the larger of the budget and the counter the send started with, 0 after a terminal close |
| Guarantees.RunGood | index.js:71-120 | the invariant holds after any script |
| Guarantees.Send | index.js:54-122 | for any script: at most one callback, exactly one once finished, always the normalised callback; at most max(retry - _retries, 0) + 1 sockets; counter 0 after a terminal close; after an auth failure the counter keeps every retry of this send; only the command with its normalised options is written |
| Guarantees.FailFastOnAuth | index.js:71-75 | an auth failure on the first attempt calls back once with `(err, null)`, opens no socket, writes nothing and leaves the client unchanged |
| Guarantees.ExhaustsBudget | index.js:83-119 | on a client whose `_retries` is 0, with budget N >= 0 and sockets that never open, exactly N + 1 sockets are created, the callback fires once with the last attempt's locals, and the counter ends at 0 |
| Guarantees.DefaultBudgetNeverRetries | index.js:110-119 | with the constructor's default budget 0, a send creates at most one socket, and its first close is terminal and zeroes the counter |
| Guarantees.CallbackExactlyOnce | index.js:110-120 | with enough whole attempts in the script, the callback fires exactly once per top-level send |
| Scenarios.AuthFailureDuringRetryShrinksNextSend | index.js:72-117 | an auth failure during a retry returns before line 117, so `_retries` stays 1, and the next send whose sockets never open gets only `retry` sockets instead of `retry + 1` |
| Scenarios.ThirdAttemptSucceeds | index.js:68-119 | budget 2, two sockets that close before opening (one after an error), then one answered with `{ok: true}`: three sockets, one write, counter 0, callback `(null, Response{ok: true})` with the earlier error discarded |
| Scenarios.FailureWithoutErrorReportsNullNull | index.js:68-119 | with no retries left, a socket that closes without opening and without an error, or that opens and closes before any message, makes the callback receive `(null, null)` |
| Scenarios.OpenedWithoutMessageReportsNullNull | index.js:85-119 | even with budget 5, a socket that opens and closes before any message ends the send with `(null, null)` and no retry |

## Left out

- The engine.io socket, TLS options, URL formatting and the `NODE_TLS_REJECT_UNAUTHORIZED` override: transport I/O, replaced by the event script.
- `protocol.Auth.createSig`: an opaque external call, modelled by the `AuthReply` event it produces. A provider that calls back more than once is not modelled; a second reply is ignored.
- `Message`, `Response` and `JSON.stringify`: opaque library code. A write is recorded as the command with its options, and a response as built from parsed text or from a structured value.
- Decode: a response built from text is kept as the parsed text, not as the value `JSON.parse` yields, so the model does not identify a text payload with the structured payload it encodes; the parser is outside the model.
- `JSON.parse` throwing on malformed text: the exception escapes the event handler into the transport, which is outside the model; parsing is taken as total.
- NewClient: models only the `retry` option of a plain options object, for integer values. `_.merge` of other options, non-integer and non-numeric `retry` values with JavaScript comparison coercion, and the environment-variable defaults for host, port and keys are left out as library and environment behaviour.
- Floating-point numbers and `NaN`: JavaScript numbers are integers here.
- `debug` logging, including the retry message that reports the counter.
- Concurrent `send` calls sharing `_retries`: their interleaving is undefined, so sends are sequential.
- scripts/postinstall.js: install-time glue that patches a dependency, not runtime behaviour.
