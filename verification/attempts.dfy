/**
 Facts about whole attempts: an attempt is the signature reply followed by
 the socket's events up to and including its `close`. These lemmas give the
 result of one attempt independently of the event-by-event machine, and
 chain attempts together.
 */
module Attempts {
  import opened Budget
  import opened JsValues
  import opened RcClient

  /** Running two scripts one after the other is running their concatenation. */
  lemma {:induction false} RunAppend(s: State, a: seq<Event>, b: seq<Event>)
    ensures Run(s, a + b) == Run(Run(s, a), b)
    decreases |a|
  {
    if |a| == 0 {
      assert a + b == b;
    } else {
      assert (a + b)[0] == a[0];
      assert (a + b)[1..] == a[1..] + b;
      RunAppend(Step(s, a[0]), a[1..], b);
    }
  }

  lemma RunSnoc(s: State, a: seq<Event>, e: Event)
    ensures Run(s, a + [e]) == Step(Run(s, a), e)
  {
    RunAppend(s, a, [e]);
    assert [e][1..] == [];
  }

  predicate NoClose(events: seq<Event>) {
    forall i :: 0 <= i < |events| ==> !events[i].Close?
  }

  predicate Opened(events: seq<Event>) {
    exists i :: 0 <= i < |events| && events[i].Open?
  }

  /** The last socket error among `events`, or `init` if there is none: what
      the `error` local holds once they have been handled. */
  function ErrorAfter(init: Js, events: seq<Event>): Js
    decreases |events|
  {
    if |events| == 0 then init
    else if events[|events| - 1].SocketError? then events[|events| - 1].err
    else ErrorAfter(init, events[..|events| - 1])
  }

  /** The decoded last message among `events`, or `init` if there is none:
      what the `response` local holds once they have been handled. */
  function ResponseAfter(init: Option<Response>, events: seq<Event>): Option<Response>
    decreases |events|
  {
    if |events| == 0 then init
    else if events[|events| - 1].Message? then Some(Decode(events[|events| - 1].data))
    else ResponseAfter(init, events[..|events| - 1])
  }

  /** One copy of the request's message per `open` among `events`. */
  function Writes(r: Request, events: seq<Event>): seq<Wire>
    decreases |events|
  {
    if |events| == 0 then []
    else Writes(r, events[..|events| - 1])
         + (if events[|events| - 1].Open? then [Wire(r.command, r.options)] else [])
  }

  /** While no `close` arrives, a live attempt only updates its locals and
      writes the request once per `open`. */
  lemma {:induction false} LiveSegment(s: State, events: seq<Event>)
    requires s.phase.Live? && NoClose(events)
    ensures var t := Run(s, events);
            && t.phase == Live(s.phase.connected || Opened(events),
                               ErrorAfter(s.phase.error, events),
                               ResponseAfter(s.phase.response, events))
            && t.client == s.client && t.request == s.request
            && t.sockets == s.sockets && t.calls == s.calls
            && t.sent == s.sent + Writes(s.request, events)
    decreases |events|
  {
    if |events| == 0 {
      assert !Opened(events);
    } else {
      var init, e := events[..|events| - 1], events[|events| - 1];
      assert events == init + [e];
      assert NoClose(init) by {
        forall i | 0 <= i < |init| ensures !init[i].Close? {
          assert init[i] == events[i];
        }
      }
      LiveSegment(s, init);
      RunSnoc(s, init, e);
      assert Opened(events) <==> Opened(init) || e.Open? by {
        if Opened(events) && !e.Open? {
          var i :| 0 <= i < |events| && events[i].Open?;
          assert i < |init| && init[i] == events[i];
        }
        if Opened(init) {
          var i :| 0 <= i < |init| && init[i].Open?;
          assert events[i] == init[i];
        }
        if e.Open? {
          assert events[|events| - 1].Open?;
        }
      }
    }
  }

  /** The events between the signature reply and the final `close`. */
  function Mid(a: seq<Event>): seq<Event>
    requires |a| >= 2
  {
    a[1..|a| - 1]
  }

  /** An attempt whose signature succeeds and whose socket closes. */
  predicate CompleteAttempt(a: seq<Event>) {
    && |a| >= 2
    && a[0].AuthReply? && !Truthy(a[0].err)
    && a[|a| - 1] == Close
    && NoClose(Mid(a))
  }

  /** An attempt whose signature fails. */
  predicate AuthFailAttempt(a: seq<Event>) {
    |a| >= 1 && a[0].AuthReply? && Truthy(a[0].err)
  }

  /** The outcome of one complete attempt: one socket, and at its `close`
      either a retry (the socket never opened, the budget is positive and the
      counter is below it) or the callback with this attempt's last error and
      last response, whatever earlier attempts recorded. */
  lemma AttemptOutcome(s: State, a: seq<Event>)
    requires s.phase.Authenticating? && CompleteAttempt(a)
    ensures var t := Run(s, a);
            var m := Mid(a);
            && t.sockets == s.sockets + 1
            && t.request == s.request
            && t.client.authorization == a[0].header
            && t.sent == s.sent + Writes(s.request, m)
            && (t.phase == Authenticating <==>
                  !Opened(m) && s.client.retry > 0 && s.client.retries < s.client.retry)
            && (t.phase == Authenticating ==>
                  t.client.retries == s.client.retries + 1 && t.calls == s.calls)
            && (t.phase != Authenticating ==>
                  && t.phase == Finished(TerminalClose)
                  && t.client.retries == 0
                  && t.calls == s.calls + [Invocation(s.request.callback, ErrorAfter(Null, m), ResponseAfter(None, m))])
  {
    var m := Mid(a);
    assert a == [a[0]] + (m + [Close]);
    RunAppend(s, [a[0]], m + [Close]);
    var s1 := Step(s, a[0]);
    assert Run(s, [a[0]]) == s1 by {
      assert [a[0]][1..] == [];
    }
    LiveSegment(s1, m);
    RunSnoc(s1, m, Close);
  }

  /** An attempt socket that fired `open` is never retried, whatever the
      budget and whether or not a message arrived. */
  lemma OpenedAttemptIsTerminal(s: State, a: seq<Event>)
    requires s.phase.Authenticating? && CompleteAttempt(a) && Opened(Mid(a))
    ensures Run(s, a).phase == Finished(TerminalClose)
    ensures Run(s, a).client.retries == 0
    ensures Run(s, a).calls == s.calls + [Invocation(s.request.callback, ErrorAfter(Null, Mid(a)), ResponseAfter(None, Mid(a)))]
  {
    AttemptOutcome(s, a);
  }

  /** A failed signature calls back with `(err, null)` at once, creates no
      socket, leaves `_retries` as it was, and nothing after it matters. */
  lemma AuthFailureIsFinal(s: State, a: seq<Event>)
    requires s.phase.Authenticating? && AuthFailAttempt(a)
    ensures Run(s, a) == s.(phase := Finished(AuthFailed),
                            calls := s.calls + [Invocation(s.request.callback, a[0].err, None)])
  {
  }

  /** The attempts of a script, one after another. */
  function Flatten(attempts: seq<seq<Event>>): seq<Event>
    decreases |attempts|
  {
    if |attempts| == 0 then [] else attempts[0] + Flatten(attempts[1..])
  }

  /** Every attempt authenticates and closes without its socket opening. */
  predicate NeverOpens(attempts: seq<seq<Event>>) {
    forall i :: 0 <= i < |attempts| ==> CompleteAttempt(attempts[i]) && !Opened(Mid(attempts[i]))
  }

  /** When no socket ever opens, a send that starts with counter `k` and
      budget `N` creates exactly `max(N - k, 0) + 1` sockets, then calls back
      once with the last attempt's locals and leaves the counter at 0. */
  lemma {:induction false} RetriesExhausted(s: State, attempts: seq<seq<Event>>)
    requires s.phase.Authenticating?
    requires |attempts| == Max0(s.client.retry - s.client.retries) + 1
    requires NeverOpens(attempts)
    ensures var t := Run(s, Flatten(attempts));
            var last := attempts[|attempts| - 1];
            && t.phase == Finished(TerminalClose)
            && t.client.retries == 0
            && t.sockets == s.sockets + |attempts|
            && t.calls == s.calls + [Invocation(s.request.callback, ErrorAfter(Null, Mid(last)), ResponseAfter(None, Mid(last)))]
    decreases |attempts|
  {
    var first := attempts[0];
    RunAppend(s, first, Flatten(attempts[1..]));
    AttemptOutcome(s, first);
    var t := Run(s, first);
    if t.phase == Authenticating {
      assert NeverOpens(attempts[1..]) by {
        forall i | 0 <= i < |attempts[1..]|
          ensures CompleteAttempt(attempts[1..][i]) && !Opened(Mid(attempts[1..][i]))
        {
          assert attempts[1..][i] == attempts[i + 1];
        }
      }
      RetriesExhausted(t, attempts[1..]);
      assert attempts[1..][|attempts[1..]| - 1] == attempts[|attempts| - 1];
    } else {
      assert |attempts| == 1;
      assert Flatten(attempts[1..]) == [];
    }
  }

  /** An attempt the environment carries to its end. */
  predicate WholeAttempt(a: seq<Event>) {
    CompleteAttempt(a) || AuthFailAttempt(a)
  }

  predicate AllWhole(attempts: seq<seq<Event>>) {
    forall i :: 0 <= i < |attempts| ==> WholeAttempt(attempts[i])
  }

  /** Given enough whole attempts, a send always finishes and calls back
      exactly once, however the sockets behave. */
  lemma {:induction false} EnoughAttemptsFinish(s: State, attempts: seq<seq<Event>>)
    requires s.phase.Authenticating?
    requires |attempts| >= Max0(s.client.retry - s.client.retries) + 1
    requires AllWhole(attempts)
    ensures Run(s, Flatten(attempts)).phase.Finished?
    ensures Run(s, Flatten(attempts)).calls[..|s.calls|] == s.calls
    ensures |Run(s, Flatten(attempts)).calls| == |s.calls| + 1
    decreases |attempts|
  {
    var first := attempts[0];
    RunAppend(s, first, Flatten(attempts[1..]));
    var t := Run(s, first);
    if AuthFailAttempt(first) {
      AuthFailureIsFinal(s, first);
    } else {
      AttemptOutcome(s, first);
      if t.phase == Authenticating {
        assert AllWhole(attempts[1..]) by {
          forall i | 0 <= i < |attempts[1..]| ensures WholeAttempt(attempts[1..][i]) {
            assert attempts[1..][i] == attempts[i + 1];
          }
        }
        EnoughAttemptsFinish(t, attempts[1..]);
      }
    }
  }
}
