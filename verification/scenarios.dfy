/**
 Sequences of sends and worked scenarios: the counter that a failed
 signature leaves behind, and a budget-2 send that succeeds on its third
 attempt.
 */
module Scenarios {
  import opened Budget
  import opened JsValues
  import opened Arguments
  import opened RcClient
  import opened Attempts
  import opened Guarantees

  /** A failed signature during a retry returns before `_retries` is zeroed:
      the client keeps counter 1, and the next send on it whose sockets never
      open gets only `retry` sockets instead of `retry + 1`. */
  lemma AuthFailureDuringRetryShrinksNextSend(
    c: Client, command: Js, options: Js, callback: Js,
    first: seq<Event>, denied: seq<Event>, attempts: seq<seq<Event>>)
    requires c.retries == 0 && c.retry > 0
    requires CompleteAttempt(first) && !Opened(Mid(first)) && AuthFailAttempt(denied)
    requires |attempts| == c.retry && NeverOpens(attempts)
    ensures var s1 := Send(c, command, options, callback, first + denied);
            && s1.phase == Finished(AuthFailed)
            && s1.client.retries == 1
            && var s2 := Send(s1.client, command, options, callback, Flatten(attempts));
               s2.phase == Finished(TerminalClose) && s2.sockets == c.retry && s2.client.retries == 0
  {
    var s0 := Start(c, command, options, callback);
    RunAppend(s0, first, denied);
    AttemptOutcome(s0, first);
    AuthFailureIsFinal(Run(s0, first), denied);
    var s1 := Send(c, command, options, callback, first + denied);
    RetriesExhausted(Start(s1.client, command, options, callback), attempts);
  }

  const okPayload: Js := Object(map["ok" := Bool(true)])

  /** Budget 2; the first two sockets close before opening (the second after
      an error), the third opens and is answered with `{ok: true}`. The
      callback gets `(null, Response{ok: true})`: the second attempt's error
      was discarded with its locals. */
  lemma ThirdAttemptSucceeds(h: Js, e: Js)
    ensures var s := Send(Client(2, 0, Str("")), Str("ping"), Object(map[]), Function(UserFn(1)),
                          [AuthReply(Null, h), Close]
                          + [AuthReply(Null, h), SocketError(e), Close]
                          + [AuthReply(Null, h), Open, Message(Structured(okPayload)), Close]);
            && s.sockets == 3
            && s.sent == [Wire(Str("ping"), map[])]
            && s.client.retries == 0
            && s.calls == [Invocation(UserFn(1), Null, Some(FromValue(okPayload)))]
  {
    var a1 := [AuthReply(Null, h), Close];
    var a2 := [AuthReply(Null, h), SocketError(e), Close];
    var a3 := [AuthReply(Null, h), Open, Message(Structured(okPayload)), Close];
    var s0 := Start(Client(2, 0, Str("")), Str("ping"), Object(map[]), Function(UserFn(1)));
    RunAppend(s0, a1 + a2, a3);
    RunAppend(s0, a1, a2);
    FirstTwoAttempts(s0, h, a1, a2);
    FinalAttempt(Run(Run(s0, a1), a2), h, a3);
  }

  lemma FirstTwoAttempts(s0: State, h: Js, a1: seq<Event>, a2: seq<Event>)
    requires s0.phase == Authenticating && s0.client.retry == 2 && s0.client.retries == 0
    requires s0.sockets == 0 && s0.sent == [] && s0.calls == []
    requires |a1| == 2 && a1[0] == AuthReply(Null, h) && a1[1] == Close
    requires |a2| == 3 && a2[0] == AuthReply(Null, h) && a2[1].SocketError? && a2[2] == Close
    ensures var s2 := Run(Run(s0, a1), a2);
            && s2.phase == Authenticating && s2.client.retries == 2 && s2.client.retry == 2
            && s2.sockets == 2 && s2.sent == [] && s2.calls == [] && s2.request == s0.request
  {
    assert Mid(a1) == [];
    AttemptOutcome(s0, a1);
    var s1 := Run(s0, a1);
    assert Mid(a2) == [a2[1]];
    assert !Opened(Mid(a2));
    assert Writes(s1.request, Mid(a2)) == [] by {
      assert Mid(a2)[..0] == [];
    }
    AttemptOutcome(s1, a2);
  }

  lemma FinalAttempt(s2: State, h: Js, a3: seq<Event>)
    requires s2.phase == Authenticating && s2.client.retries == 2 && s2.client.retry == 2
    requires s2.sent == []
    requires a3 == [AuthReply(Null, h), Open, Message(Structured(okPayload)), Close]
    ensures var t := Run(s2, a3);
            && t.sockets == s2.sockets + 1
            && t.sent == [Wire(s2.request.command, s2.request.options)]
            && t.client.retries == 0
            && t.calls == s2.calls + [Invocation(s2.request.callback, Null, Some(FromValue(okPayload)))]
  {
    var m := Mid(a3);
    assert m == [Open, Message(Structured(okPayload))];
    assert Opened(m) by {
      assert m[0].Open?;
    }
    assert m[..1] == [Open] && [Open][..0] == [];
    assert ErrorAfter(Null, m) == Null;
    assert Writes(s2.request, m) == [Wire(s2.request.command, s2.request.options)];
    AttemptOutcome(s2, a3);
  }

  /** There is no generic connect-failure error: a send reports `(null, null)`
      both when its last socket closes without opening and without an error
      event, and when a socket opens and closes before any message. */
  lemma FailureWithoutErrorReportsNullNull(c: Client, command: Js, options: Js, callback: Js,
                                           h: Js, a: seq<Event>, rest: seq<Event>)
    requires c.retry <= c.retries
    requires a == [AuthReply(Null, h), Close] || a == [AuthReply(Null, h), Open, Close]
    ensures Send(c, command, options, callback, a + rest).calls
              == [Invocation(Normalize(options, callback).callback, Null, None)]
  {
    var s0 := Start(c, command, options, callback);
    RunAppend(s0, a, rest);
    if a == [AuthReply(Null, h), Open, Close] {
      assert Mid(a) == [Open];
      assert Opened(Mid(a)) by {
        assert Mid(a)[0].Open?;
      }
      assert Mid(a)[..0] == [];
    } else {
      assert Mid(a) == [];
    }
    AttemptOutcome(s0, a);
  }

  /** An opened socket closing before any message ends the send with
      `(null, null)` even with a budget left. */
  lemma OpenedWithoutMessageReportsNullNull(command: Js, options: Js, callback: Js, h: Js)
    ensures Send(Client(5, 0, Str("")), command, options, callback, [AuthReply(Null, h), Open, Close]).calls
              == [Invocation(Normalize(options, callback).callback, Null, None)]
  {
    var a := [AuthReply(Null, h), Open, Close];
    var s0 := Start(Client(5, 0, Str("")), command, options, callback);
    assert Mid(a) == [Open];
    assert Opened(Mid(a)) by {
      assert Mid(a)[0].Open?;
    }
    assert Mid(a)[..0] == [];
    AttemptOutcome(s0, a);
  }
}
