/**
 The `send` call chain of the rc-client as an event-driven state machine.

 One top-level `send` authenticates, opens one socket, sends the command on
 `open`, keeps the last inbound message as the response, records the last
 socket error, and on `close` either retries (a fresh `send` with fresh
 locals) or finishes by invoking the callback. The environment is a script
 of events; an event that cannot occur in the current phase (a socket event
 while the signature is being computed, anything after the callback has
 fired) leaves the state unchanged.
 */
module RcClient {
  import opened JsValues
  import opened Arguments

  /** The client-level state that outlives a single `send`: the retry budget
      `options.retry`, the `_retries` counter and the authorization header
      slot of the engine options. */
  datatype Client = Client(retry: int, retries: nat, authorization: Js)

  /** A message handed to the `message` handler: text or an already
      structured value. */
  datatype Payload = Text(text: string) | Structured(value: Js)

  /** A protocol `Response`, built from the parsed text of a text payload or
      from a structured payload as it arrived. The codec itself is opaque. */
  datatype Response = FromParsedText(text: string) | FromValue(value: Js)

  /** The outbound protocol `Message` sent on `open`. */
  datatype Wire = Wire(command: Js, options: map<string, Js>)

  /** One invocation of the user's callback: `callback(error, response)`. */
  datatype Invocation = Invocation(callback: Fn, error: Js, response: Option<Response>)

  /** The normalised arguments of the running `send`. */
  datatype Request = Request(command: Js, options: map<string, Js>, callback: Fn)

  /** What the environment does. `AuthReply` is the callback of the signature
      provider; the others are the socket's events. */
  datatype Event =
    | AuthReply(err: Js, header: Js)
    | Open
    | Message(data: Payload)
    | SocketError(err: Js)
    | Close

  datatype Finish = AuthFailed | TerminalClose

  /** Where the call chain is. `Live` carries the attempt's locals
      `connected`, `error` and `response`. */
  datatype Phase =
    | Authenticating
    | Live(connected: bool, error: Js, response: Option<Response>)
    | Finished(how: Finish)

  /** The whole machine. `sockets` counts the sockets created, `sent` the
      messages written to them, `closeRequests` the `socket.close()` calls
      and `calls` the callback invocations. */
  datatype State = State(
    phase: Phase,
    client: Client,
    request: Request,
    sockets: nat,
    sent: seq<Wire>,
    closeRequests: nat,
    calls: seq<Invocation>)

  /** The constructor: `retry` defaults to 0 and is overridden by a numeric
      `retry` of a plain options object; `_retries` starts at 0 and the
      authorization header is empty. */
  function NewClient(options: Js): (c: Client)
    ensures c.retries == 0 && c.authorization == Str("")
    ensures !IsPlainObject(options) ==> c.retry == 0
    ensures IsPlainObject(options) && "retry" !in options.fields ==> c.retry == 0
    ensures IsPlainObject(options) && "retry" in options.fields && options.fields["retry"].Num? ==>
              c.retry == options.fields["retry"].n
  {
    var retry :=
      if IsPlainObject(options) && "retry" in options.fields && options.fields["retry"].Num?
      then options.fields["retry"].n
      else 0;
    Client(retry, 0, Str(""))
  }

  /** The decision taken by the `if` condition of the `close` handler, with
      `&&` short-circuiting left to right and `_retries++` evaluated only when
      the socket never opened and the budget is positive. */
  datatype Guard = Guard(retry: bool, retries: nat)

  function RetryGuard(connected: bool, budget: int, retries: nat): (g: Guard)
    ensures g.retry <==> !connected && budget > 0 && retries < budget
    // the post-increment happens exactly when the third conjunct is evaluated
    ensures g.retries == retries + 1 <==> !connected && budget > 0
    ensures g.retries == retries || g.retries == retries + 1
  {
    if connected then Guard(false, retries)
    else if !(budget > 0) then Guard(false, retries)
    else Guard(budget > retries, retries + 1)
  }

  /** How an inbound message becomes the response: a string is parsed first. */
  function Decode(data: Payload): Response {
    match data
    case Text(t) => FromParsedText(t)
    case Structured(v) => FromValue(v)
  }

  /** The `close` handler. A retry re-enters `send` with the same (already
      normalised) arguments; otherwise `_retries` is zeroed and the callback
      receives this attempt's `error` and `response`. */
  function OnClose(s: State): (t: State)
    requires s.phase.Live?
    ensures t.phase == Authenticating <==>
              !s.phase.connected && s.client.retry > 0 && s.client.retries < s.client.retry
    ensures t.phase.Authenticating? ==>
              t.client.retries == s.client.retries + 1 && t.calls == s.calls
    ensures !t.phase.Authenticating? ==>
              && t.phase == Finished(TerminalClose)
              && t.client.retries == 0
              && t.calls == s.calls + [Invocation(s.request.callback, s.phase.error, s.phase.response)]
    ensures t.request == s.request && t.sockets == s.sockets && t.sent == s.sent
    ensures t.client.retry == s.client.retry && t.client.authorization == s.client.authorization
  {
    var g := RetryGuard(s.phase.connected, s.client.retry, s.client.retries);
    var c := s.client.(retries := g.retries);
    if g.retry then
      var a := Normalize(Object(s.request.options), Function(s.request.callback));
      s.(phase := Authenticating, client := c,
         request := Request(s.request.command, a.options, a.callback))
    else
      s.(phase := Finished(TerminalClose), client := c.(retries := 0),
         calls := s.calls + [Invocation(s.request.callback, s.phase.error, s.phase.response)])
  }

  /** One event. */
  function Step(s: State, e: Event): (t: State)
    ensures s.phase.Finished? ==> t == s
    ensures t.request == s.request && t.client.retry == s.client.retry
    // the callback fires on, and only on, the step that finishes the send
    ensures !s.phase.Finished? && t.phase.Finished? ==>
              && |t.calls| == |s.calls| + 1 && t.calls[..|s.calls|] == s.calls
              && t.calls[|s.calls|].callback == s.request.callback
    ensures !(!s.phase.Finished? && t.phase.Finished?) ==> t.calls == s.calls
    // a socket is created only when a successful signature arrives
    ensures s.phase.Authenticating? && e.AuthReply? ==> (t.phase.Live? <==> !Truthy(e.err))
    ensures s.phase.Authenticating? && e.AuthReply? && Truthy(e.err) ==> t.phase == Finished(AuthFailed)
    ensures t.sockets == s.sockets + (if s.phase.Authenticating? && t.phase.Live? then 1 else 0)
    ensures t.phase.Live? && !s.phase.Live? ==> t.phase == Live(false, Null, None)
    // every inbound message asks the socket to close
    ensures t.closeRequests == s.closeRequests + (if s.phase.Live? && e.Message? then 1 else 0)
    // only an `open` writes to the socket, and it writes the request
    ensures t.sent == s.sent || (s.phase.Live? && e == Open && t.sent == s.sent + [Wire(s.request.command, s.request.options)])
  {
    match s.phase
    case Finished(_) => s
    case Authenticating =>
      (match e
       case AuthReply(err, header) =>
         if Truthy(err) then
           s.(phase := Finished(AuthFailed),
              calls := s.calls + [Invocation(s.request.callback, err, None)])
         else
           s.(phase := Live(false, Null, None),
              client := s.client.(authorization := header),
              sockets := s.sockets + 1)
       case _ => s)
    case Live(connected, error, response) =>
      match e
      case AuthReply(_, _) => s
      case Open =>
        s.(phase := Live(true, error, response),
           sent := s.sent + [Wire(s.request.command, s.request.options)])
      case Message(data) =>
        s.(phase := Live(connected, error, Some(Decode(data))),
           closeRequests := s.closeRequests + 1)
      case SocketError(err) => s.(phase := Live(connected, err, response))
      case Close => OnClose(s)
  }

  /** A script of events, applied in order. */
  function Run(s: State, script: seq<Event>): (t: State)
    ensures s.phase.Finished? ==> t == s
    ensures t.request == s.request && t.client.retry == s.client.retry
    ensures |s.calls| <= |t.calls| <= |s.calls| + 1 && t.calls[..|s.calls|] == s.calls
    ensures s.phase.Finished? || t.phase.Finished? ==> |t.calls| == |s.calls| + (if s.phase.Finished? then 0 else 1)
    ensures !t.phase.Finished? ==> t.calls == s.calls
    decreases |script|
  {
    if |script| == 0 then s else Run(Step(s, script[0]), script[1..])
  }

  /** The state a top-level `send(command, options, callback)` starts in. */
  function Start(c: Client, command: Js, options: Js, callback: Js): (s: State)
    ensures s.phase == Authenticating && s.client == c
    ensures s.sockets == 0 && s.sent == [] && s.calls == [] && s.closeRequests == 0
    ensures s.request == Request(command, Normalize(options, callback).options, Normalize(options, callback).callback)
  {
    var a := Normalize(options, callback);
    State(Authenticating, c, Request(command, a.options, a.callback), 0, [], 0, [])
  }
}
