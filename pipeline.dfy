/** The decision pipeline of relay-proxy.js (`getRemoteProxy`): the
    authentication policy is asked first; only an authorized request reaches
    the upstream selector, whose answer either declines the request or says
    how to forward it. Requests, policy answers and the effects the proxy
    performs are plain values here. */
module Pipeline {
  import opened Common

  /** What the policies and the forwarding code see of a request: its method (`verb`),
      its URL (the `host:port` authority for CONNECT), the `path` property and
      the header map, keyed by lower-case header name. */
  datatype RequestView = RequestView(verb: string, url: string, path: Option<string>, headers: map<string, string>)

  /** A port as JavaScript holds it: text split out of a header or URL, a
      number, or `undefined`. */
  datatype Port = PortText(text: string) | PortNumber(number: nat) | PortUndefined

  /** The options object a selector returns to forward through a relay. */
  datatype Upstream = Upstream(host: string, port: Port, username: Option<string>, password: Option<string>)

  /** The `options` a selector passes to its callback: `false` declines,
      `null` and `undefined` forward directly, an object names the relay. */
  datatype SelectorOptions = False | Null | Undefined | UpstreamOptions(upstream: Upstream)

  /** `callback(err, authorized)`: `authorized` is its JavaScript truthiness. */
  datatype AuthAnswer = AuthAnswer(err: Option<string>, authorized: bool)

  /** `callback(err, options)` of a selector. */
  datatype SelectorAnswer = SelectorAnswer(err: Option<string>, options: SelectorOptions)

  /** The policy a caller installs with `authorize`: request, username, password. */
  type AuthHandler = (RequestView, Option<string>, Option<string>) -> AuthAnswer

  /** The policy a caller installs with `selectForwardProxy`: request, username. */
  type ProxySelector = (RequestView, Option<string>) -> SelectorAnswer

  /** `defaultAuthHandler`: `callback(null, true)`. */
  function DefaultAuthHandler(req: RequestView, username: Option<string>, password: Option<string>): AuthAnswer
  {
    AuthAnswer(None, true)
  }

  /** `defaultProxySelector`: `callback(null, null)`. */
  function DefaultProxySelector(req: RequestView, username: Option<string>): SelectorAnswer
  {
    SelectorAnswer(None, Null)
  }

  datatype PipelineError = AuthDenied | NoUpstreamAvailable

  const Response407: string :=
    "HTTP/1.0 407 Proxy authentication required\r\nProxy-authenticate: Basic realm=\"remotehost\"\r\n\r\n"

  const Response429: string :=
    "HTTP/1.0 429 Too Many Requests\r\n\r\nNo proxy available to service request"

  /** The text `getRemoteProxy` ends the client connection with for each error. */
  function RejectionResponse(e: PipelineError): string
  {
    match e
    case AuthDenied => Response407
    case NoUpstreamAvailable => Response429
  }

  /** What `getRemoteProxy` hands its callback. */
  datatype Decision = Rejected(error: PipelineError) | Proceed(options: SelectorOptions)

  /** The steps of `getRemoteProxy`: waiting for the auth policy, waiting
      for the selector, finished. */
  datatype Phase = Authorizing | Selecting | Finished(decision: Decision)

  /** The step taken when the auth policy answers. */
  function AfterAuthorization(a: AuthAnswer): Phase
  {
    if !a.authorized then Finished(Rejected(AuthDenied)) else Selecting
  }

  /** The step taken when the selector answers; only `false` itself declines. */
  function AfterSelection(s: SelectorAnswer): Phase
  {
    if s.options == False then Finished(Rejected(NoUpstreamAvailable)) else Finished(Proceed(s.options))
  }

  /** The outcome of the pipeline for the two policy answers; the selector's
      answer stands for what it would say had it been asked. */
  function Decide(a: AuthAnswer, s: SelectorAnswer): Decision
  {
    match AfterAuthorization(a)
    case Finished(d) => d
    case _ => AfterSelection(s).decision
  }

  /** The effects the relay performs, in the order it performs them. */
  datatype Event =
    | AskedAuth(username: Option<string>, password: Option<string>)   // authHandler(req, username, password, ...)
    | AskedSelector(username: Option<string>)                         // proxySelector(req, username, ...)
    | ConnectionEnd(text: string)                                     // req.connection.end(text)
    | ProxyRequest(host: string, port: Port, request: RequestView, buffered: bool)  // proxy.proxyRequest
    | Threw(message: string)                                          // an exception escapes the handler
    | Connect(host: string, port: Port)                               // net.connect
    | UpstreamWrite(text: string)                                     // conn.write(text)
    | ClientWrite(text: string)                                       // socket.write(text)
    | ClientEnd(text: string)                                         // socket.end(text)
    | Splice                                                          // socket.pipe(conn) and conn.pipe(socket)

  /** The events that settle what happens to a request: a rejection sent by
      the pipeline, a forward, a connection opened for a tunnel, or a throw. */
  predicate IsDisposition(e: Event)
  {
    e.ConnectionEnd? || e.ProxyRequest? || e.Connect? || e.Threw?
  }

  /** How many settling events a log holds. */
  function Dispositions(log: seq<Event>): nat
    decreases |log|
  {
    if log == [] then 0 else (if IsDisposition(log[0]) then 1 else 0) + Dispositions(log[1..])
  }

  lemma {:induction false} DispositionsConcat(a: seq<Event>, b: seq<Event>)
    ensures Dispositions(a + b) == Dispositions(a) + Dispositions(b)
    decreases |a|
  {
    if a != [] {
      assert (a + b)[0] == a[0] && (a + b)[1..] == a[1..] + b;
      DispositionsConcat(a[1..], b);
    } else {
      assert a + b == b;
    }
  }

  /** The log of `getRemoteProxy`: the auth policy is asked with the presented
      credentials; a denial ends the connection with the 407 text; otherwise
      the selector is asked with the username and a decline ends the
      connection with the 429 text. */
  function PipelineLog(username: Option<string>, password: Option<string>, a: AuthAnswer, d: Decision): seq<Event>
  {
    [AskedAuth(username, password)]
    + (if a.authorized then [AskedSelector(username)] else [])
    + (if d.Rejected? then [ConnectionEnd(RejectionResponse(d.error))] else [])
  }

  /** The auth policy is always asked first; the selector is asked, second,
      exactly when the request was authorized; a rejection is the last
      event and the only settling one, and a request that proceeds has not
      been settled yet. */
  lemma PipelineLogShape(username: Option<string>, password: Option<string>, a: AuthAnswer, s: SelectorAnswer)
    ensures var log := PipelineLog(username, password, a, Decide(a, s));
      && log[0] == AskedAuth(username, password)
      && (AskedSelector(username) in log <==> a.authorized)
      && (a.authorized ==> log[1] == AskedSelector(username))
      && Dispositions(log) == (if Decide(a, s).Rejected? then 1 else 0)
      && (Decide(a, s).Rejected? ==> log[|log| - 1] == ConnectionEnd(RejectionResponse(Decide(a, s).error)))
  {
    var d := Decide(a, s);
    var log := PipelineLog(username, password, a, d);
    var first := [AskedAuth(username, password)];
    var asked: seq<Event> := if a.authorized then [AskedSelector(username)] else [];
    var ended: seq<Event> := if d.Rejected? then [ConnectionEnd(RejectionResponse(d.error))] else [];
    assert log == first + asked + ended;
    DispositionsConcat(first + asked, ended);
    DispositionsConcat(first, asked);
    assert Dispositions(first) == 0 by { assert first[1..] == []; }
    assert Dispositions(asked) == 0 by { if asked != [] { assert asked[1..] == []; } }
    assert Dispositions(ended) == (if d.Rejected? then 1 else 0) by {
      if ended != [] { assert ended[1..] == []; }
    }
  }

  /** A denial settles the request whatever the selector would say: it is
      never consulted. */
  lemma DenialIgnoresSelector(a: AuthAnswer, s1: SelectorAnswer, s2: SelectorAnswer)
    requires !a.authorized
    ensures Decide(a, s1) == Decide(a, s2) == Rejected(AuthDenied)
  {
  }

  /** Only `authorized` and `options` decide; the `err` arguments of both
      callbacks are ignored. */
  lemma DecideIgnoresErrors(a: AuthAnswer, s: SelectorAnswer, authErr: Option<string>, selectorErr: Option<string>)
    ensures Decide(a.(err := authErr), s.(err := selectorErr)) == Decide(a, s)
  {
  }

  /** The four outcomes: denied, declined, or proceeding with the selector's
      options unchanged (`null`, `undefined` or a relay). */
  lemma DecideOutcomes(a: AuthAnswer, s: SelectorAnswer)
    ensures Decide(a, s) == Rejected(AuthDenied) <==> !a.authorized
    ensures Decide(a, s) == Rejected(NoUpstreamAvailable) <==> a.authorized && s.options == False
    ensures Decide(a, s).Proceed? <==> a.authorized && s.options != False
    ensures Decide(a, s).Proceed? ==> Decide(a, s).options == s.options
  {
  }

  /** With the default policies every request proceeds, directly. */
  lemma DefaultPoliciesForwardDirectly(req: RequestView, username: Option<string>, password: Option<string>)
    ensures Decide(DefaultAuthHandler(req, username, password), DefaultProxySelector(req, username)) == Proceed(Null)
  {
  }
}
