/**
 What one top-level `send` guarantees for every environment script: at most
 one callback, and exactly one once the send is over; an attempt bound set by
 the retry budget and the counter left by earlier sends; only the request
 is ever written; and a zero counter after every terminal close.
 */
module Guarantees {
  import opened Budget
  import opened JsValues
  import opened Arguments
  import opened RcClient
  import opened Attempts

  /** The invariant of a send that started with counter `r0`. While the
      chain is running, every socket created so far except the live one was
      retried, so the counter has advanced once per such socket. */
  predicate Good(s: State, r0: nat) {
    && |s.calls| <= 1
    && (|s.calls| == 1 <==> s.phase.Finished?)
    && (forall i :: 0 <= i < |s.calls| ==> s.calls[i].callback == s.request.callback)
    && (forall i :: 0 <= i < |s.sent| ==> s.sent[i] == Wire(s.request.command, s.request.options))
    && (|s.sent| > 0 ==> s.sockets > 0)
    && match s.phase
       case Authenticating =>
         r0 + s.sockets == s.client.retries <= Max(r0, s.client.retry)
       case Live(_, _, _) =>
         r0 + s.sockets == s.client.retries + 1 && s.sockets >= 1 && s.client.retries <= Max(r0, s.client.retry)
       case Finished(AuthFailed) =>
         r0 + s.sockets == s.client.retries <= Max(r0, s.client.retry)
       case Finished(TerminalClose) =>
         1 <= s.sockets <= Max0(s.client.retry - r0) + 1 && s.client.retries == 0
  }

  lemma StepGood(s: State, e: Event, r0: nat)
    requires Good(s, r0)
    ensures Good(Step(s, e), r0)
  {
  }

  lemma {:induction false} RunGood(s: State, script: seq<Event>, r0: nat)
    requires Good(s, r0)
    ensures Good(Run(s, script), r0)
    decreases |script|
  {
    if |script| > 0 {
      StepGood(s, script[0], r0);
      RunGood(Step(s, script[0]), script[1..], r0);
    }
  }

  /** One top-level `send(command, options, callback)` on client `c`, driven
      by `script`. */
  function Send(c: Client, command: Js, options: Js, callback: Js, script: seq<Event>): (s: State)
    // exactly-once: never twice, and once precisely when the send is over
    ensures |s.calls| <= 1
    ensures |s.calls| == 1 <==> s.phase.Finished?
    ensures forall i :: 0 <= i < |s.calls| ==> s.calls[i].callback == Normalize(options, callback).callback
    // attempt bound: at most max(retry - _retries, 0) + 1 sockets
    ensures s.sockets <= Max0(c.retry - c.retries) + 1
    ensures s.phase == Finished(TerminalClose) ==> s.client.retries == 0 && s.sockets >= 1
    // a failed signature leaves the counter advanced by every retry already made
    ensures s.phase == Finished(AuthFailed) ==> s.client.retries == c.retries + s.sockets
    // only the command with its normalised options is written, and only to a socket
    ensures forall i :: 0 <= i < |s.sent| ==> s.sent[i] == Wire(command, Normalize(options, callback).options)
    ensures |s.sent| > 0 ==> s.sockets > 0
    ensures s.client.retry == c.retry
  {
    var s0 := Start(c, command, options, callback);
    RunGood(s0, script, c.retries);
    Run(s0, script)
  }

  /** Auth failure on the first attempt: the callback gets `(err, null)`, no
      socket is created, nothing else happens, and the client is untouched. */
  lemma FailFastOnAuth(c: Client, command: Js, options: Js, callback: Js, script: seq<Event>)
    requires AuthFailAttempt(script)
    ensures var s := Send(c, command, options, callback, script);
            && s.phase == Finished(AuthFailed)
            && s.sockets == 0 && s.sent == []
            && s.calls == [Invocation(Normalize(options, callback).callback, script[0].err, None)]
            && s.client == c
  {
  }

  /** With budget `N >= 0` on a client whose counter is 0, a send whose
      sockets never open creates exactly `N + 1` sockets and calls back once,
      with the last attempt's locals, leaving the counter at 0. */
  lemma ExhaustsBudget(c: Client, command: Js, options: Js, callback: Js,
                       attempts: seq<seq<Event>>, rest: seq<Event>)
    requires c.retries == 0 && c.retry >= 0
    requires |attempts| == c.retry + 1 && NeverOpens(attempts)
    ensures var s := Send(c, command, options, callback, Flatten(attempts) + rest);
            var last := attempts[|attempts| - 1];
            && s.sockets == c.retry + 1
            && s.phase == Finished(TerminalClose)
            && s.client.retries == 0
            && s.calls == [Invocation(Normalize(options, callback).callback,
                                      ErrorAfter(Null, Mid(last)), ResponseAfter(None, Mid(last)))]
  {
    var s0 := Start(c, command, options, callback);
    RetriesExhausted(s0, attempts);
    RunAppend(s0, Flatten(attempts), rest);
  }

  /** The default budget `retry: 0`: the first close of a send is terminal,
      so a send creates at most one socket, for any script. */
  lemma DefaultBudgetNeverRetries(clientOptions: Js, command: Js, options: Js, callback: Js,
                                  a: seq<Event>, rest: seq<Event>)
    requires !IsPlainObject(clientOptions) || "retry" !in clientOptions.fields
    ensures Send(NewClient(clientOptions), command, options, callback, a + rest).sockets <= 1
    ensures CompleteAttempt(a) ==>
              && Send(NewClient(clientOptions), command, options, callback, a + rest).phase == Finished(TerminalClose)
              && Send(NewClient(clientOptions), command, options, callback, a + rest).client.retries == 0
  {
    var c := NewClient(clientOptions);
    var s0 := Start(c, command, options, callback);
    if CompleteAttempt(a) {
      AttemptOutcome(s0, a);
      RunAppend(s0, a, rest);
    }
  }

  /** Given enough whole attempts the callback fires exactly once. */
  lemma CallbackExactlyOnce(c: Client, command: Js, options: Js, callback: Js,
                            attempts: seq<seq<Event>>, rest: seq<Event>)
    requires |attempts| >= Max0(c.retry - c.retries) + 1 && AllWhole(attempts)
    ensures |Send(c, command, options, callback, Flatten(attempts) + rest).calls| == 1
  {
    var s0 := Start(c, command, options, callback);
    EnoughAttemptsFinish(s0, attempts);
    RunAppend(s0, Flatten(attempts), rest);
  }
}
