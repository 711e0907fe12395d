/** What the two entry points of relay-proxy.js do once the pipeline lets a
    request proceed: where a plain HTTP request is forwarded and how it is
    rewritten for a relay (`onHttpRequest`), and how a CONNECT tunnel is
    opened directly or through a relay (`onHttpsRequest`, section 4.3.6 of
    RFC 7231). */
module Forwarding {
  import opened Common
  import opened Pipeline
  import Text
  import opened CredentialCodec

  const HostHeader: string := "host"
  const DefaultHttpPort: nat := 80

  /** The message of the TypeError thrown by `req.headers.host.split` without a Host header. */
  const NoHostHeaderError: string := "Cannot read property 'split' of undefined"

  // ---------------------------------------------------------------------
  // Plain HTTP

  /** `parts = host.split(':')`, then `{host: parts[0], port: parts[1] || 80}`:
      the text before the first colon and the piece after it, or 80 when
      that piece is missing or empty. */
  function HostHeaderTarget(hostHeader: string): (t: (string, Port))
    ensures ':' !in t.0
    ensures t.1 == PortNumber(DefaultHttpPort) || (t.1.PortText? && t.1.text != "" && ':' !in t.1.text)
  {
    var parts := Text.Split(hostHeader, ':');
    (parts[0], if |parts| > 1 && parts[1] != "" then PortText(parts[1]) else PortNumber(DefaultHttpPort))
  }

  /** `host:port` gives that host and port; `host:` gives port 80, since
      the empty piece is falsy. */
  lemma HostHeaderWithPort(host: string, port: string)
    requires ':' !in host && ':' !in port
    ensures HostHeaderTarget(host + ":" + port) ==
            (host, if port == "" then PortNumber(DefaultHttpPort) else PortText(port))
  {
    Text.SplitAfterPrefix(host, ':', port);
    assert Text.Split("", ':') == [""];
  }

  lemma HostHeaderWithoutPort(host: string)
    requires ':' !in host
    ensures HostHeaderTarget(host) == (host, PortNumber(DefaultHttpPort))
  {
  }

  /** Anything after a second colon is dropped; an empty port means 80. */
  lemma HostHeaderExtraPieces(host: string, port: string, extra: string)
    requires ':' !in host && ':' !in port
    ensures HostHeaderTarget(host + ":" + port + ":" + extra) ==
            (host, if port == "" then PortNumber(DefaultHttpPort) else PortText(port))
  {
    assert host + ":" + port + ":" + extra == host + [':'] + (port + [':'] + extra);
    Text.SplitAfterPrefix(host, ':', port + [':'] + extra);
    Text.SplitAfterPrefix(port, ':', extra);
  }

  /** The direct forward (`proxy.proxyRequest(req, res, {host, port})`): the
      request unchanged to the Host header's target, with no buffer option;
      without a Host header the `split` call throws. */
  function HttpDirectForward(req: RequestView): (e: Event)
    ensures IsDisposition(e)
    ensures e.Threw? <==> HostHeader !in req.headers
    ensures e.ProxyRequest? ==> e.request == req && !e.buffered
    ensures e.ProxyRequest? ==> (e.host, e.port) == HostHeaderTarget(req.headers[HostHeader])
  {
    if HostHeader !in req.headers then Threw(NoHostHeaderError)
    else
      var target := HostHeaderTarget(req.headers[HostHeader]);
      ProxyRequest(target.0, target.1, req, false)
  }

  /** The condition `remoteProxy.username && remoteProxy.password`. */
  predicate CarriesCredentials(up: Upstream)
  {
    Truthy(up.username) && Truthy(up.password)
  }

  /** The request as rewritten for a relay: `req.path = req.url`, and the
      `proxy-authorization` header replaced by the relay's credentials only
      when both are truthy. */
  function UpstreamRequest(req: RequestView, up: Upstream): (r: RequestView)
    ensures r.verb == req.verb && r.url == req.url && r.path == Some(req.url)
    ensures forall k :: k in r.headers && k != HeaderName ==> k in req.headers && r.headers[k] == req.headers[k]
    ensures forall k :: k in req.headers ==> k in r.headers
    ensures CarriesCredentials(up) ==>
              r.headers == req.headers[HeaderName := CreateAuthHeader(up.username.value, up.password.value)]
    ensures !CarriesCredentials(up) ==> r.headers == req.headers
  {
    var headers :=
      if CarriesCredentials(up) then req.headers[HeaderName := CreateAuthHeader(up.username.value, up.password.value)]
      else req.headers;
    req.(path := Some(req.url), headers := headers)
  }

  /** A relay reading the rewritten request gets the selector's credentials
      back, when they are ones `getAuth` can carry. */
  lemma UpstreamRequestCarriesCredentials(req: RequestView, up: Upstream, lenient: string -> string)
    requires CarriesCredentials(up)
    requires ':' !in up.username.value && !HasLineTerminator(up.password.value)
    ensures GetAuth(UpstreamRequest(req, up).headers, lenient) == Some(Credentials(up.username.value, up.password.value))
  {
    AuthHeaderRoundTrip(req.headers, lenient, up.username.value, up.password.value);
  }

  /** Without both credentials the client's own `proxy-authorization`
      header, if any, goes to the relay untouched. */
  lemma UpstreamRequestKeepsClientAuthorization(req: RequestView, up: Upstream)
    requires !CarriesCredentials(up) && HeaderName in req.headers
    ensures UpstreamRequest(req, up).headers[HeaderName] == req.headers[HeaderName]
  {
  }

  /** The forward through a relay: the rewritten request, to the relay's
      host and port, with the buffered body. */
  function HttpUpstreamForward(req: RequestView, up: Upstream): (e: Event)
    ensures IsDisposition(e)
    ensures e.ProxyRequest? && (e.host, e.port) == (up.host, up.port)
    ensures e.request == UpstreamRequest(req, up) && e.buffered
  {
    ProxyRequest(up.host, up.port, UpstreamRequest(req, up), true)
  }

  // ---------------------------------------------------------------------
  // CONNECT

  const TunnelEstablished: string := "HTTP/1.1 200 OK\r\n\r\n"
  const UpstreamRejected: string := "HTTP/1.1 401 Unauthorized\r\n\r\nUpstream proxy rejected the request"

  /** `parts = req.url.split(':')`, then `net.connect(parts[1], parts[0])`:
      host before the first colon, port the next piece or `undefined`. */
  function TunnelTarget(url: string): (t: (string, Port))
    ensures ':' !in t.0
    ensures t.1 == PortUndefined <==> ':' !in url
    ensures ':' !in url ==> t == (url, PortUndefined)
  {
    var parts := Text.Split(url, ':');
    if |parts| == 1 then
      Text.JoinSplit(url, ':');
      (parts[0], PortUndefined)
    else
      (parts[0], PortText(parts[1]))
  }

  lemma TunnelTargetOfAuthority(host: string, port: string)
    requires ':' !in host && ':' !in port
    ensures TunnelTarget(host + ":" + port) == (host, PortText(port))
  {
    Text.SplitAfterPrefix(host, ':', port);
  }

  /** Only the first two pieces are used: in an authority with more colons,
      such as the bracketed IPv6 `[::1]:443`, the port is the text between
      the first and the second colon. */
  lemma TunnelTargetExtraPieces(host: string, port: string, extra: string)
    requires ':' !in host && ':' !in port
    ensures TunnelTarget(host + ":" + port + ":" + extra) == (host, PortText(port))
  {
    assert host + ":" + port + ":" + extra == host + [':'] + (port + [':'] + extra);
    Text.SplitAfterPrefix(host, ':', port + [':'] + extra);
    Text.SplitAfterPrefix(port, ':', extra);
  }

  /** The direct tunnel: connect to the target, answer 200 once connected,
      then splice the two sockets. */
  function DirectTunnel(url: string): seq<Event>
  {
    var target := TunnelTarget(url);
    [Connect(target.0, target.1), ClientWrite(TunnelEstablished), Splice]
  }

  /** The `Proxy-Authorization` value sent to a relay: built without a
      truthiness test, so an absent username or password is the text "undefined". */
  function ConnectAuthorization(up: Upstream): string
  {
    CreateAuthHeader(JsText(up.username), JsText(up.password))
  }

  function ConnectRequestLine(url: string): string
  {
    "CONNECT " + url + " HTTP/1.1\r\n"
  }

  /** The bytes written to the relay once connected: the request line and
      a single `Proxy-Authorization` header, then the empty line. */
  function ConnectHandshake(url: string, up: Upstream): (t: string)
    ensures |t| > |ConnectRequestLine(url)| + 4
    ensures t[..|ConnectRequestLine(url)|] == ConnectRequestLine(url)
    ensures t[|t| - 4..] == "\r\n\r\n"
    ensures t == ConnectRequestLine(url) + "Proxy-Authorization: " + ConnectAuthorization(up) + "\r\n\r\n"
  {
    var line := ConnectRequestLine(url);
    var t := line + "Proxy-Authorization: " + ConnectAuthorization(up) + "\r\n\r\n";
    assert t[..|line|] == line;
    t
  }

  /** A relay reading the handshake's header gets the selector's credentials. */
  lemma HandshakeCarriesCredentials(up: Upstream, lenient: string -> string, username: string, password: string)
    requires up.username == Some(username) && up.password == Some(password)
    requires username != "" && ':' !in username && password != "" && !HasLineTerminator(password)
    ensures GetAuth(map[HeaderName := ConnectAuthorization(up)], lenient) == Some(Credentials(username, password))
  {
    AuthHeaderRoundTrip(map[], lenient, username, password);
    assert map[][HeaderName := ConnectAuthorization(up)] == map[HeaderName := ConnectAuthorization(up)];
  }

  /** A relay without credentials is sent the credentials "undefined:undefined". */
  lemma HandshakeWithoutCredentials(up: Upstream, lenient: string -> string)
    requires up.username == None && up.password == None
    ensures GetAuth(map[HeaderName := ConnectAuthorization(up)], lenient) == Some(Credentials("undefined", "undefined"))
  {
    assert !HasLineTerminator("undefined") by {
      forall j | 0 <= j < |"undefined"| ensures !IsLineTerminator("undefined"[j]) {
      }
    }
    HandshakeCarriesCredentials(up.(username := Some("undefined"), password := Some("undefined")),
                                lenient, "undefined", "undefined");
  }

  /** `c` matches the letter `upper` under the `i` flag: the letter itself or
      its ASCII lower-case form. */
  predicate SameLetter(c: char, upper: char)
    requires 'A' <= upper <= 'Z'
  {
    c == upper || c as int == upper as int + 32
  }

  /** `/^HTTP\/1.[01] 200 /i.test(chunk)`: "HTTP" in any case, "/1", any one
      character but a line terminator (the `.` is not escaped), '0' or '1',
      then " 200 ". */
  predicate AcceptsUpstreamReply(chunk: string)
  {
    && |chunk| >= 13
    && SameLetter(chunk[0], 'H') && SameLetter(chunk[1], 'T') && SameLetter(chunk[2], 'T') && SameLetter(chunk[3], 'P')
    && chunk[4] == '/' && chunk[5] == '1'
    && !IsLineTerminator(chunk[6])
    && (chunk[7] == '0' || chunk[7] == '1')
    && chunk[8] == ' ' && chunk[9] == '2' && chunk[10] == '0' && chunk[11] == '0' && chunk[12] == ' '
  }

  /** Only the first thirteen characters are looked at. */
  lemma AcceptsUpstreamReplyPrefix(chunk: string, more: string)
    requires |chunk| >= 13
    ensures AcceptsUpstreamReply(chunk + more) <==> AcceptsUpstreamReply(chunk)
  {
    assert (chunk + more)[..13] == chunk[..13];
  }

  function UpperChar(c: char): char
  {
    if 'a' <= c <= 'z' then (c as int - 32) as char else c
  }

  /** `s` with its ASCII letters in upper case. */
  function UpperAscii(s: string): string
  {
    seq(|s|, i requires 0 <= i < |s| => UpperChar(s[i]))
  }

  /** The test ignores letter case. */
  lemma AcceptsUpstreamReplyIgnoresCase(chunk: string)
    ensures AcceptsUpstreamReply(UpperAscii(chunk)) <==> AcceptsUpstreamReply(chunk)
  {
  }

  lemma UpstreamReplyExamples()
    ensures AcceptsUpstreamReply("HTTP/1.1 200 Connection established\r\n\r\n")
    ensures AcceptsUpstreamReply("http/1.0 200 OK\r\n\r\n")
    ensures AcceptsUpstreamReply("HTTP/1x1 200 OK\r\n\r\n")
    ensures !AcceptsUpstreamReply("HTTP/1.1 407 Proxy Authentication Required\r\n\r\n")
    ensures !AcceptsUpstreamReply("HTTP/1.1 200\r\n\r\n")
    ensures !AcceptsUpstreamReply("HTTP/2 200 OK\r\n\r\n")
  {
  }

  /** What the client is sent once the relay's first reply chunk arrives. */
  function TunnelReply(chunk: string): seq<Event>
  {
    if AcceptsUpstreamReply(chunk) then [ClientWrite(TunnelEstablished), Splice]
    else [ClientEnd(UpstreamRejected)]
  }

  /** The tunnel through a relay: connect to it, send the handshake, and
      answer the client after the relay's first chunk, if one arrives. */
  function UpstreamTunnel(url: string, up: Upstream, firstChunk: Option<string>): seq<Event>
  {
    [Connect(up.host, up.port), UpstreamWrite(ConnectHandshake(url, up))]
    + (match firstChunk
       case None => []
       case Some(chunk) => TunnelReply(chunk))
  }

  /** Through a relay the handshake goes out first; then the client is sent
      the 200 line exactly when the relay's first chunk passes the test, and
      exactly the 401 text when it fails; with no chunk, nothing. */
  lemma UpstreamTunnelReplies(url: string, up: Upstream, firstChunk: Option<string>)
    ensures var events := UpstreamTunnel(url, up, firstChunk);
      && |events| >= 2
      && events[..2] == [Connect(up.host, up.port), UpstreamWrite(ConnectHandshake(url, up))]
      && (ClientWrite(TunnelEstablished) in events <==> firstChunk.Some? && AcceptsUpstreamReply(firstChunk.value))
      && (ClientEnd(UpstreamRejected) in events <==> firstChunk.Some? && !AcceptsUpstreamReply(firstChunk.value))
      && (Splice in events <==> ClientWrite(TunnelEstablished) in events)
      && (firstChunk.None? ==> |events| == 2)
  {
  }

  /** The forwarding events for a request the pipeline let through. */
  function HttpForward(req: RequestView, options: SelectorOptions): Event
  {
    match options
    case UpstreamOptions(up) => HttpUpstreamForward(req, up)
    case _ => HttpDirectForward(req)
  }

  function TunnelForward(url: string, options: SelectorOptions, firstChunk: Option<string>): seq<Event>
  {
    match options
    case UpstreamOptions(up) => UpstreamTunnel(url, up, firstChunk)
    case _ => DirectTunnel(url)
  }

  /** A tunnel starts with the one connection it opens, settles the request
      there, and the client is told 200 only when the tunnel is spliced. */
  lemma TunnelForwardShape(url: string, options: SelectorOptions, firstChunk: Option<string>)
    ensures var events := TunnelForward(url, options, firstChunk);
      && |events| >= 2 && events[0].Connect?
      && Dispositions(events) == 1
      && (ClientWrite(TunnelEstablished) in events <==> Splice in events)
  {
    var events := TunnelForward(url, options, firstChunk);
    var tail := events[1..];
    assert events == [events[0]] + tail;
    DispositionsConcat([events[0]], tail);
    assert Dispositions([events[0]]) == 1 by { assert [events[0]][1..] == []; }
    NoDispositionsAfterConnect(tail);
  }

  /** None of the events a tunnel performs after connecting settles anything. */
  lemma {:induction false} NoDispositionsAfterConnect(events: seq<Event>)
    requires forall i :: 0 <= i < |events| ==> events[i].UpstreamWrite? || events[i].ClientWrite? || events[i].ClientEnd? || events[i].Splice?
    ensures Dispositions(events) == 0
    decreases |events|
  {
    if events != [] {
      NoDispositionsAfterConnect(events[1..]);
    }
  }
}
