/** The `RelayProxy` object of relay-proxy.js: two replaceable policy
    handlers held in its closure, the pipeline that consults them, and the
    two entry points the listener calls for plain requests and for CONNECT. */
module Relay {
  import opened Common
  import opened Pipeline
  import opened CredentialCodec
  import opened Forwarding

  /** A request as the listener hands it over. `onHttpRequest` rewrites its
      `path` and its headers in place before forwarding it to a relay. */
  class InboundRequest {
    const verb: string
    const url: string
    var path: Option<string>
    var headers: map<string, string>

    constructor (verb: string, url: string, headers: map<string, string>)
      ensures View() == RequestView(verb, url, None, headers)
    {
      this.verb := verb;
      this.url := url;
      this.path := None;
      this.headers := headers;
    }

    function View(): RequestView
      reads this
    {
      RequestView(verb, url, path, headers)
    }

    /** `req.path = req.url`, then the relay's credentials into the
        `proxy-authorization` header when both are truthy. */
    method PrepareForUpstream(up: Upstream)
      modifies this
      ensures View() == UpstreamRequest(old(View()), up)
    {
      path := Some(url);
      if CarriesCredentials(up) {
        headers := headers[HeaderName := CreateAuthHeader(up.username.value, up.password.value)];
      }
    }
  }

  class RelayProxy {
    var authHandler: AuthHandler
    var proxySelector: ProxySelector
    /** Node's lenient base64 and UTF-8 decoding for header payloads that are
        not canonical; the runtime supplies it, the model does not define it. */
    const bufferDecode: string -> string

    /** `new RelayProxy()`: the default policies, which authorize everything
        and forward everything directly. */
    constructor (bufferDecode: string -> string)
      ensures this.bufferDecode == bufferDecode
      ensures authHandler == DefaultAuthHandler && proxySelector == DefaultProxySelector
    {
      this.bufferDecode := bufferDecode;
      authHandler := DefaultAuthHandler;
      proxySelector := DefaultProxySelector;
    }

    /** `this.authorize(handler)`: replaces the auth policy only. */
    method Authorize(handler: AuthHandler)
      modifies this
      ensures authHandler == handler && proxySelector == old(proxySelector)
    {
      authHandler := handler;
    }

    /** `this.selectForwardProxy(handler)`: replaces the selector only. */
    method SelectForwardProxy(handler: ProxySelector)
      modifies this
      ensures proxySelector == handler && authHandler == old(authHandler)
    {
      proxySelector := handler;
    }

    /** `auth.username` and `auth.password` of `getAuth(req) || {}`. */
    function PresentedUsername(req: InboundRequest): Option<string>
      reads req
    {
      match GetAuth(req.headers, bufferDecode)
      case Some(c) => Some(c.username)
      case None => None
    }

    function PresentedPassword(req: InboundRequest): Option<string>
      reads req
    {
      match GetAuth(req.headers, bufferDecode)
      case Some(c) => Some(c.password)
      case None => None
    }

    /** The answer the installed auth policy gives for `req`. */
    function AuthAnswerFor(req: InboundRequest): AuthAnswer
      reads this, req
    {
      authHandler(req.View(), PresentedUsername(req), PresentedPassword(req))
    }

    /** The answer the installed selector gives for `req`, if asked. */
    function SelectorAnswerFor(req: InboundRequest): SelectorAnswer
      reads this, req
    {
      proxySelector(req.View(), PresentedUsername(req))
    }

    /** `getRemoteProxy(req, callback)`: AUTHORIZING, then SELECTING only when
        authorized, then the decision handed to the callback; each rejection
        ends the client connection with its response first. */
    method GetRemoteProxy(req: InboundRequest) returns (decision: Decision, log: seq<Event>)
      ensures decision == Decide(AuthAnswerFor(req), SelectorAnswerFor(req))
      ensures log == PipelineLog(PresentedUsername(req), PresentedPassword(req), AuthAnswerFor(req), decision)
      ensures log[0] == AskedAuth(PresentedUsername(req), PresentedPassword(req))
      ensures AskedSelector(PresentedUsername(req)) in log <==> AuthAnswerFor(req).authorized
      ensures Dispositions(log) == (if decision.Rejected? then 1 else 0)
      ensures decision.Rejected? ==> log[|log| - 1] == ConnectionEnd(RejectionResponse(decision.error))
      ensures decision.Proceed? ==> decision.options != False
    {
      var view := req.View();
      var username, password := PresentedUsername(req), PresentedPassword(req);
      var phase := Authorizing;
      log := [AskedAuth(username, password)];
      var authAnswer := authHandler(view, username, password);
      phase := AfterAuthorization(authAnswer);
      if phase == Selecting {
        log := log + [AskedSelector(username)];
        var selectorAnswer := proxySelector(view, username);
        phase := AfterSelection(selectorAnswer);
      }
      decision := phase.decision;
      if decision.Rejected? {
        log := log + [ConnectionEnd(RejectionResponse(decision.error))];
      }
      PipelineLogShape(username, password, authAnswer, SelectorAnswerFor(req));
    }

    /** `onHttpRequest(req, res, proxy)`: after the pipeline, forward directly
        to the Host header's target, or rewrite the request in place and
        forward it to the relay; nothing more once the pipeline rejected. */
    method OnHttpRequest(req: InboundRequest) returns (log: seq<Event>)
      modifies req
      ensures var d := Decide(old(AuthAnswerFor(req)), old(SelectorAnswerFor(req)));
              var gate := PipelineLog(old(PresentedUsername(req)), old(PresentedPassword(req)), old(AuthAnswerFor(req)), d);
              match d
              case Rejected(_) => log == gate && req.View() == old(req.View())
              case Proceed(options) =>
                && log == gate + [HttpForward(old(req.View()), options)]
                && req.View() == (if options.UpstreamOptions? then UpstreamRequest(old(req.View()), options.upstream)
                                  else old(req.View()))
      ensures Dispositions(log) == 1
    {
      var decision, gate := GetRemoteProxy(req);
      log := gate;
      if decision.Rejected? {
        return;
      }
      ghost var before := req.View();
      if decision.options.UpstreamOptions? {
        var up := decision.options.upstream;
        req.PrepareForUpstream(up);
        log := log + [ProxyRequest(up.host, up.port, req.View(), true)];
        assert log == gate + [HttpForward(before, decision.options)];
      } else {
        log := log + [HttpDirectForward(req.View())];
      }
      DispositionsConcat(gate, [HttpForward(before, decision.options)]);
      assert Dispositions([HttpForward(before, decision.options)]) == 1 by {
        assert [HttpForward(before, decision.options)][1..] == [];
      }
    }

    /** `onHttpsRequest(req, socket, head)`: after the pipeline, tunnel
        directly to the CONNECT target, or through the relay after its
        handshake; `firstChunk` is the relay's first reply, if any arrives. */
    method OnHttpsRequest(req: InboundRequest, firstChunk: Option<string>) returns (log: seq<Event>)
      ensures var d := Decide(AuthAnswerFor(req), SelectorAnswerFor(req));
              var gate := PipelineLog(PresentedUsername(req), PresentedPassword(req), AuthAnswerFor(req), d);
              log == gate + (if d.Proceed? then TunnelForward(req.url, d.options, firstChunk) else [])
      ensures Dispositions(log) == 1
      ensures ClientWrite(TunnelEstablished) in log <==> Splice in log
    {
      var decision, gate := GetRemoteProxy(req);
      log := gate;
      if decision.Rejected? {
        return;
      }
      var tunnel: seq<Event>;
      if decision.options.UpstreamOptions? {
        var up := decision.options.upstream;
        tunnel := [Connect(up.host, up.port), UpstreamWrite(ConnectHandshake(req.url, up))];
        if firstChunk.Some? {
          tunnel := tunnel + TunnelReply(firstChunk.value);
        }
      } else {
        var target := TunnelTarget(req.url);
        tunnel := [Connect(target.0, target.1), ClientWrite(TunnelEstablished), Splice];
      }
      assert tunnel == TunnelForward(req.url, decision.options, firstChunk);
      log := log + tunnel;
      TunnelForwardShape(req.url, decision.options, firstChunk);
      DispositionsConcat(gate, tunnel);
    }
  }
}
