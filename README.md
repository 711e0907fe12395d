# relay-proxy, modelled in Dafny

relay-proxy.js is an HTTP and HTTPS (CONNECT) forward proxy for Node.js. A
`RelayProxy` holds two replaceable policies. The auth handler decides, from
the credentials in the client's `Proxy-Authorization` header, whether a
request may pass. The proxy selector decides whether to decline it, send it
directly to its target, or relay it through an upstream proxy.

This project models the part of the proxy that makes decisions and builds
text:

- the Basic credential codec (`getAuth`, `createAuthHeader`), over exact
  models of base64 (RFC 4648, section 4) and UTF-8 (RFC 3629);
- the decision pipeline `getRemoteProxy`, stepping through authorizing,
  selecting and outcome, with its 407 and 429 responses;
- the forwarding targets for plain requests and for CONNECT, the in-place
  rewrite of a request for a relay, the CONNECT handshake text, and the
  test applied to the relay's first reply.

Sockets, `net.connect` and the `http-proxy` library are replaced by an
event log: a `seq<Event>` that records, in order, each policy call, each
text written or ended on a connection, each forward, each connection
opened, each splice and each exception. The policies are function values.
Node's lenient decoding of non-canonical base64 or malformed UTF-8 is the
parameter `bufferDecode`, so the model claims nothing about such input.

Files:

| file | module | models |
|---|---|---|
| `common.dfy` | `Common` | bytes, `Option`, JavaScript truthiness and string conversion |
| `text.dfy` | `Text` | `indexOf` and `split` with a one-character separator |
| `base64.dfy` | `Base64` | RFC 4648 base64, with a strict canonical decoder |
| `utf8.dfy` | `Utf8` | RFC 3629 UTF-8, with a strict decoder |
| `credentials.dfy` | `CredentialCodec` | `getAuth`, `createAuthHeader` |
| `pipeline.dfy` | `Pipeline` | request view, policy answers, `getRemoteProxy` outcomes, event log |
| `forwarding.dfy` | `Forwarding` | the targets and events of `onHttpRequest` and `onHttpsRequest` |
| `relay.dfy` | `Relay` | the `RelayProxy` object and the request object it rewrites |

Four behaviours of the code that are easy to miss, all modelled as written:

- The direct HTTP forward passes no buffered body to `proxyRequest`. Only
  the relayed forward does (`buffered` in `ProxyRequest`).
- The reply test `/^HTTP\/1.[01] 200 /i` leaves its dot unescaped, so any
  character is accepted in that position.
- `getAuth` never checks that the six skipped characters are `Basic `.
- A CONNECT relay without credentials is sent `undefined:undefined`.

## Model

| member | source | states |
|---|---|---|
| CredentialCodec.CreateAuthHeader | relay-proxy.js:68-70 | the header begins with `Basic `, and the rest is canonical base64 that decodes, as UTF-8, to exactly `username:password` with nothing escaped |
| CredentialCodec.MatchUserPass | relay-proxy.js:57-58 | a match splits the text as `username:password`, where the username is non-empty and colon-free and the password is non-empty with no line terminator |
| CredentialCodec.MatchUserPassWithoutColon | relay-proxy.js:57 | text without `:` never matches |
| CredentialCodec.MatchUserPassAtFirstColon | relay-proxy.js:57-58 | the split is at the first colon and succeeds iff both sides are non-empty and the password has no line terminator; the password may contain colons |
| CredentialCodec.BufferDecodeOfEncoding | relay-proxy.js:57-69 | text encoded as UTF-8 and then base64 decodes back to itself, whatever the lenient decoder does |
| CredentialCodec.GetAuth | relay-proxy.js:53-66 | credentials come back only from a present, non-empty header, with a non-empty colon-free username and a non-empty password |
| CredentialCodec.GetAuthWithoutHeader | relay-proxy.js:55-56 | an absent or empty header gives null |
| CredentialCodec.GetAuthOfDecodedText | relay-proxy.js:56-65 | for decoded text `user:pass`, the result is null when either part is empty, otherwise exactly those credentials |
| CredentialCodec.GetAuthOfTextWithoutColon | relay-proxy.js:57-65 | decoded text without `:` gives null |
| CredentialCodec.GetAuthIgnoresScheme | relay-proxy.js:57 | the six skipped characters are never inspected: any six give the same answer as `Basic ` |
| CredentialCodec.GetAuthOfCreateAuthHeader | relay-proxy.js:53-70 | reading a header made by `createAuthHeader(u, p)` is the same as splitting `u:p`, whatever the lenient decoder does |
| CredentialCodec.AuthHeaderRoundTrip | relay-proxy.js:53-70 | `getAuth` returns `{u, p}` from `createAuthHeader(u, p)` iff `u` is non-empty and colon-free and `p` is non-empty with no line terminator |
| CredentialCodec.ColonInUsernameMovesToPassword | relay-proxy.js:57-69 | a colon in the username is not escaped: reading back splits at it and moves the rest of the username into the password |
| CredentialCodec.MatchUserPassRegroup | relay-proxy.js:57 | text `head:tail:password` splits into `head` and `tail:password` |
| Base64.Digit | relay-proxy.js:69 | an alphabet digit is never the pad character |
| Base64.DigitValue | relay-proxy.js:57 | a character's value, when it has one, maps back to that character |
| Base64.DigitValueOfDigit | relay-proxy.js:57-69 | each digit's value is recovered exactly |
| Base64.Encode | relay-proxy.js:69 | the encoding of n bytes has 4·⌈n/3⌉ characters |
| Base64.DecodeGroup | relay-proxy.js:57 | an unpadded quantum decodes to three bytes |
| Base64.DecodeFinal | relay-proxy.js:57 | a final, possibly padded quantum decodes to one to three bytes |
| Base64.Decode | relay-proxy.js:57 | decoding gives at most three bytes per four characters |
| Base64.GroupArithmetic | relay-proxy.js:57-69 | splitting three bytes into four sextets and joining them back is the identity |
| Base64.GroupRoundTrip | relay-proxy.js:57-69 | an encoded quantum decodes to its three bytes |
| Base64.FinalOneRoundTrip | relay-proxy.js:57-69 | one byte survives encoding and decoding |
| Base64.FinalTwoRoundTrip | relay-proxy.js:57-69 | two bytes survive encoding and decoding |
| Base64.SingleGroupRoundTrip | relay-proxy.js:57-69 | three bytes survive encoding and decoding |
| Base64.DecodeLeadingGroup | relay-proxy.js:57 | decoding a full quantum followed by more text concatenates the two results |
| Base64.EncodeNonEmpty | relay-proxy.js:69 | a non-empty byte sequence encodes to at least one quantum |
| Base64.EncodeSplit | relay-proxy.js:69 | encoding more than three bytes is the first quantum followed by the encoding of the rest |
| Base64.DecodeEncodeStep | relay-proxy.js:57-69 | the round trip extends from the tail to the whole sequence |
| Base64.SextetArithmetic | relay-proxy.js:57-69 | the four digit values are recovered from the three octets they decode to |
| Base64.GroupInverse | relay-proxy.js:57-69 | a quantum that decodes is the encoding of its three octets |
| Base64.FinalInverse | relay-proxy.js:57-69 | a final quantum that decodes, padded or not, is the encoding of its octets |
| Base64.EncodeAfterGroup | relay-proxy.js:69 | encoding three octets followed by more is their quantum followed by the encoding of the rest |
| Base64.EncodeDecode | relay-proxy.js:57-69 | `Encode(Decode(s).value) == s` whenever `Decode(s)` succeeds: with `DecodeEncode`, the strict decoder accepts exactly the canonical encodings |
| Base64.DecodeEncode | relay-proxy.js:57-69 | `Decode(Encode(b)) == Some(b)` for every byte sequence |
| Utf8.EncodeChar | relay-proxy.js:69 | a character takes one to four bytes, and one byte exactly when it is ASCII |
| Utf8.Encode | relay-proxy.js:69 | the encoding is at least as long as the text |
| Utf8.DecodeHead | relay-proxy.js:57 | a decoded character consumes one to four of the available bytes |
| Utf8.Decode | relay-proxy.js:57 | decoding gives at most one character per byte |
| Utf8.TwoByteArithmetic | relay-proxy.js:69 | the two-byte form has a valid lead byte and recombines to the code point |
| Utf8.ThreeByteArithmetic | relay-proxy.js:69 | the three-byte form has a valid lead byte and recombines to the code point |
| Utf8.FourByteArithmetic | relay-proxy.js:69 | the four-byte form has a valid lead byte and recombines to the code point |
| Utf8.DecodeHeadOfEncodeChar | relay-proxy.js:57-69 | the strict decoder reads an encoded character back, consuming exactly its bytes |
| Utf8.DecodeEncode | relay-proxy.js:57-69 | `Decode(Encode(s)) == Some(s)` for every text |
| Text.IndexOf | relay-proxy.js:57 | the result is the position of the first occurrence, or none when the character is absent |
| Text.IndexOfAfterPrefix | relay-proxy.js:57 | in `a + c + b` with no `c` in `a`, the first `c` is at `|a|` |
| Text.Split | relay-proxy.js:111 | `split` gives at least one piece, and no piece contains the separator |
| Text.JoinSplit | relay-proxy.js:111 | joining the pieces with the separator gives the text back |
| Text.SplitAfterPrefix | relay-proxy.js:143 | splitting at a first separator gives the prefix followed by the split of the rest |
| Text.SplitJoin | relay-proxy.js:111 | separator-free pieces are recovered by splitting their join |
| Pipeline.DispositionsConcat | relay-proxy.js:72-95 | settling events of a concatenated log add up |
| Pipeline.PipelineLogShape | relay-proxy.js:72-95 | the auth policy is asked first, and the selector second exactly when authorized; a rejection is the only settling event and comes last, so a request that proceeds is not yet settled |
| Pipeline.DenialIgnoresSelector | relay-proxy.js:77-81 | a denial gives the 407 outcome whatever the selector would have said |
| Pipeline.DecideIgnoresErrors | relay-proxy.js:75-91 | the `err` arguments of both callbacks never change the outcome |
| Pipeline.DecideOutcomes | relay-proxy.js:77-91 | denied iff not authorized; declined iff authorized and the options are exactly `false`; otherwise proceeds with the options unchanged |
| Pipeline.DefaultPoliciesForwardDirectly | relay-proxy.js:34-51 | the default policies authorize and forward directly |
| Forwarding.HostHeaderTarget | relay-proxy.js:111-115 | the host has no colon, and the port is either 80 or a non-empty, colon-free piece of the Host header; the lemmas below say which |
| Forwarding.HostHeaderWithPort | relay-proxy.js:111-115 | `host:port` gives that host and port, and `host:` gives port 80 because the empty piece is falsy |
| Forwarding.HostHeaderWithoutPort | relay-proxy.js:111-115 | a Host header without a colon gives port 80 |
| Forwarding.HostHeaderExtraPieces | relay-proxy.js:111-115 | pieces after the second are ignored |
| Forwarding.HttpDirectForward | relay-proxy.js:110-116 | the request throws iff it has no Host header; otherwise it goes unchanged and unbuffered to the Host header's target |
| Forwarding.UpstreamRequest | relay-proxy.js:119-121 | method and url are kept and `path` becomes the url. With both credentials truthy, the header map is the old one with `proxy-authorization` set to exactly `createAuthHeader(username, password)`; otherwise it is untouched |
| Forwarding.UpstreamRequestCarriesCredentials | relay-proxy.js:119-121 | with truthy credentials, the rewritten request reads back as exactly those credentials |
| Forwarding.UpstreamRequestKeepsClientAuthorization | relay-proxy.js:120-121 | without both credentials, the client's own `proxy-authorization` passes through unchanged |
| Forwarding.HttpUpstreamForward | relay-proxy.js:122-127 | the relayed forward goes to the relay's host and port, carries the rewritten request and passes the buffered body |
| Forwarding.TunnelTarget | relay-proxy.js:143-144 | the host has no colon, and the port is undefined iff the url has no colon; a url without a colon is connected to as a whole, with an undefined port |
| Forwarding.TunnelTargetExtraPieces | relay-proxy.js:143-144 | with more colons, as in `[::1]:443`, the host is the text before the first colon and the port the text between the first and second |
| Forwarding.TunnelTargetOfAuthority | relay-proxy.js:143-144 | `host:port` gives that host and port |
| Forwarding.ConnectHandshake | relay-proxy.js:154-157 | the bytes sent are exactly `CONNECT <url> HTTP/1.1\r\n`, then `Proxy-Authorization: ` with the relay's header value, then a blank line |
| Forwarding.HandshakeCarriesCredentials | relay-proxy.js:156 | the `Proxy-Authorization` value in the handshake reads back as the relay's credentials |
| Forwarding.HandshakeWithoutCredentials | relay-proxy.js:156 | for a relay without credentials, the `Proxy-Authorization` value in the handshake reads back as `undefined:undefined` |
| Forwarding.AcceptsUpstreamReplyPrefix | relay-proxy.js:161 | the test looks only at a prefix of the chunk |
| Forwarding.AcceptsUpstreamReplyIgnoresCase | relay-proxy.js:161 | the test ignores ASCII letter case |
| Forwarding.UpstreamReplyExamples | relay-proxy.js:161 | it accepts `HTTP/1.1 200 …`, lower case and `HTTP/1x1 200 …`; it rejects a 407, a status without a trailing space, and HTTP/2 |
| Forwarding.UpstreamTunnelReplies | relay-proxy.js:152-168 | connect and handshake come first. The client gets the 200 line exactly when the first chunk passes the test, and exactly the 401 text when it fails. Without a chunk the log is exactly the connect and the handshake, and the sides are spliced exactly when 200 is sent |
| Forwarding.TunnelForwardShape | relay-proxy.js:142-168 | a tunnel opens one connection first, and that connection settles the request; the client is told 200 exactly when the two sides are spliced (the 401 `end` on relay rejection is not counted as settling: the connection already settled it) |
| Forwarding.NoDispositionsAfterConnect | relay-proxy.js:144-168 | writes, ends and splices settle nothing |
| Relay.InboundRequest.constructor | relay-proxy.js:97 | a fresh request has no path set |
| Relay.InboundRequest.PrepareForUpstream | relay-proxy.js:119-121 | the request is rewritten in place to exactly `UpstreamRequest` of its old value |
| Relay.RelayProxy.constructor | relay-proxy.js:32-51 | a new proxy holds the default policies |
| Relay.RelayProxy.Authorize | relay-proxy.js:173-175 | replaces the auth policy and leaves the selector alone |
| Relay.RelayProxy.SelectForwardProxy | relay-proxy.js:177-179 | replaces the selector and leaves the auth policy alone |
| Relay.RelayProxy.GetRemoteProxy | relay-proxy.js:72-95 | the decision follows the installed policies. The log asks auth first and the selector only when authorized. A rejection is the single settling event and ends with its 407 or 429 text. `false` never proceeds |
| Relay.RelayProxy.OnHttpRequest | relay-proxy.js:97-129 | after the pipeline's log, a proceeding request is forwarded exactly once, or, on the direct path without a Host header, throws; the throw is counted as the settling event, though nothing is sent and no forward starts. A relayed request is rewritten in place for the relay; otherwise, and on rejection, it is unchanged. Exactly one event settles the request |
| Relay.RelayProxy.OnHttpsRequest | relay-proxy.js:131-171 | after the pipeline's log, a proceeding CONNECT opens its tunnel, directly or via the relay. Exactly one event settles the request, and the client gets 200 exactly when the tunnel is spliced. The settling event is the connection opened; a relay's rejection also ends the client socket with the 401 text after it |

## Left out

- Sockets, `net.connect`, `pipe` and `end` as real I/O. Each is an event recording its text or target.
- `httpProxy.proxyRequest`, `httpProxy.buffer`, `createServer` and `listen` (relay-proxy.js:181-189): foreign library calls whose code is not part of this model. A forward is recorded as its target, the request value and whether a body buffer is passed.
- `console.log` calls, and the callback's `err` reaching `onHttpRequest` and `onHttpsRequest`, which only log it.
- Asynchrony: each policy answers exactly once, synchronously. A policy that never calls back, or calls back more than once, is not modelled.
- A failed or slow `net.connect`, and a relay that closes without sending data. With no first chunk (`firstChunk == None`) the client is left waiting; that is the only such case modelled.
- The UTF-8 decoding of the relay's reply chunk: the chunk is modelled as text.
- CredentialCodec.BufferDecode: Node's lenient decoding of non-canonical base64 and malformed UTF-8 is the opaque parameter `bufferDecode`. Nothing is proved about such payloads; `BufferDecodeOfEncoding` covers the canonical ones.
- JavaScript strings are UTF-16. Here a string is a sequence of Unicode scalar values, so `substr(6)` counts characters and lone surrogates do not exist.
- Forwarding.AcceptsUpstreamReply: the regex has no `u` flag, so its `.` at position 6 matches one UTF-16 code unit; the model's `.` matches one scalar value, and so accepts a reply such as `HTTP/1\U{1F600}1 200 ` that JavaScript rejects.
- Relay.RelayProxy.GetRemoteProxy: `authorized` is modelled by its truthiness alone, as a boolean.
- Forwarding.HttpDirectForward: the `TypeError` thrown for a missing Host header is one `Threw` event with a fixed message, not an exception unwinding the stack.
- The error objects handed to the `getRemoteProxy` callback (lines 79 and 87) only reach `console.log`. They are not modelled; a rejection is its `PipelineError`.
- `Upstream` holds credentials as optional strings, and `SelectorOptions` has only `false`, `null`, `undefined` and an options object. A `null` username or password (sent as `null` on the CONNECT path, where `None` gives `undefined`), a numeric password, other falsy values such as `0` or `""`, and truthy non-object options cannot be represented.
- The upstream connection is never closed after a rejection, so no property says both sides are closed.
