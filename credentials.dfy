/** The proxy credential codec of relay-proxy.js: `getAuth` reads the
    `Proxy-Authorization` header of a request and `createAuthHeader` builds
    one, in the Basic scheme of section 2 of RFC 7617. */
module CredentialCodec {
  import opened Common
  import Base64
  import Utf8
  import Text

  datatype Credentials = Credentials(username: string, password: string)

  /** Node lower-cases incoming header names. */
  const HeaderName: string := "proxy-authorization"

  /** `getAuth` drops this many leading characters without looking at them. */
  const SkippedPrefixLength: nat := 6

  /** The characters that `.` in a JavaScript regular expression does not match. */
  predicate IsLineTerminator(c: char)
  {
    c == '\n' || c == '\r' || c == '\U{2028}' || c == '\U{2029}'
  }

  predicate HasLineTerminator(s: string)
  {
    exists j :: 0 <= j < |s| && IsLineTerminator(s[j])
  }

  /** The header value `createAuthHeader(username, password)` builds: the
      text `username:password`, nothing escaped, as UTF-8, in base64, after
      the scheme "Basic ". */
  function CreateAuthHeader(username: string, password: string): (h: string)
    ensures |h| >= SkippedPrefixLength && h[..SkippedPrefixLength] == "Basic "
    ensures Base64.Decode(h[SkippedPrefixLength..]).Some?
    ensures Utf8.Decode(Base64.Decode(h[SkippedPrefixLength..]).value) == Some(username + ":" + password)
  {
    var bytes := Utf8.Encode(username + ":" + password);
    Base64.DecodeEncode(bytes);
    Utf8.DecodeEncode(username + ":" + password);
    var h := "Basic " + Base64.Encode(bytes);
    assert h[SkippedPrefixLength..] == Base64.Encode(bytes);
    h
  }

  /** The match of /^([^:]*):(.*)$/ followed by the test that both groups are
      non-empty: the username is everything before the first ':', the
      password everything after it, which must hold no line terminator for
      `(.*)$` to reach the end of the text. */
  function MatchUserPass(t: string): (r: Option<Credentials>)
    ensures r.Some? ==> t == r.value.username + ":" + r.value.password
    ensures r.Some? ==> ':' !in r.value.username && r.value.username != ""
    ensures r.Some? ==> r.value.password != "" && !HasLineTerminator(r.value.password)
  {
    match Text.IndexOf(t, ':')
    case None => None
    case Some(i) =>
      var user, pass := t[..i], t[i + 1..];
      assert t == user + ":" + pass;
      if user == "" || pass == "" || HasLineTerminator(pass) then None
      else Some(Credentials(user, pass))
  }

  /** Text without a ':' never matches. */
  lemma MatchUserPassWithoutColon(t: string)
    requires ':' !in t
    ensures MatchUserPass(t) == None
  {
  }

  /** Text with a first ':' matches exactly when both sides are non-empty and
      the password has no line terminator; a password may hold further colons. */
  lemma MatchUserPassAtFirstColon(user: string, pass: string)
    requires ':' !in user
    ensures MatchUserPass(user + ":" + pass) ==
      if user == "" || pass == "" || HasLineTerminator(pass) then None
      else Some(Credentials(user, pass))
  {
    var t := user + ":" + pass;
    Text.IndexOfAfterPrefix(user, ':', pass);
    assert t[..|user|] == user && t[|user| + 1..] == pass;
  }

  /** What `new Buffer(payload, 'base64').toString()` yields: the text exactly
      when the payload is canonical base64 of well-formed UTF-8, and whatever
      Node's lenient decoders make of anything else, which `lenient` stands for. */
  function BufferDecode(payload: string, lenient: string -> string): string
  {
    match Base64.Decode(payload)
    case Some(bytes) =>
      (match Utf8.Decode(bytes)
       case Some(text) => text
       case None => lenient(payload))
    case None => lenient(payload)
  }

  /** Text encoded as UTF-8 and then as base64 decodes to itself, whatever
      the lenient decoders would do with other payloads. */
  lemma BufferDecodeOfEncoding(s: string, lenient: string -> string)
    ensures BufferDecode(Base64.Encode(Utf8.Encode(s)), lenient) == s
  {
    Base64.DecodeEncode(Utf8.Encode(s));
    Utf8.DecodeEncode(s);
  }

  /** `authHeader.substr(6)`. */
  function Payload(header: string): string
  {
    if |header| <= SkippedPrefixLength then "" else header[SkippedPrefixLength..]
  }

  /** `getAuth(req)`: `None` (JavaScript `null`) when the header is absent or
      empty, or when its decoded text does not split into a non-empty
      username and password. */
  function GetAuth(headers: map<string, string>, lenient: string -> string): (r: Option<Credentials>)
    ensures r.Some? ==> HeaderName in headers && headers[HeaderName] != ""
    ensures r.Some? ==> ':' !in r.value.username && r.value.username != "" && r.value.password != ""
  {
    if HeaderName !in headers || headers[HeaderName] == "" then None
    else MatchUserPass(BufferDecode(Payload(headers[HeaderName]), lenient))
  }

  /** An absent or empty header yields no credentials. */
  lemma GetAuthWithoutHeader(headers: map<string, string>, lenient: string -> string)
    requires HeaderName !in headers || headers[HeaderName] == ""
    ensures GetAuth(headers, lenient) == None
  {
  }

  /** A header whose decoded text has no ':' yields no credentials;
      one whose text is `user:pass` with no ':' in `user` yields them exactly
      when neither part is empty and `pass` has no line terminator. */
  lemma GetAuthOfDecodedText(headers: map<string, string>, lenient: string -> string, user: string, pass: string)
    requires HeaderName in headers && headers[HeaderName] != ""
    requires ':' !in user
    requires BufferDecode(Payload(headers[HeaderName]), lenient) == user + ":" + pass
    ensures GetAuth(headers, lenient) ==
      if user == "" || pass == "" || HasLineTerminator(pass) then None
      else Some(Credentials(user, pass))
  {
    MatchUserPassAtFirstColon(user, pass);
  }

  lemma GetAuthOfTextWithoutColon(headers: map<string, string>, lenient: string -> string)
    requires HeaderName in headers
    requires ':' !in BufferDecode(Payload(headers[HeaderName]), lenient)
    ensures GetAuth(headers, lenient) == None
  {
  }

  /** The first six characters are skipped unread: any six characters
      in place of "Basic " give the same answer. */
  lemma GetAuthIgnoresScheme(headers: map<string, string>, lenient: string -> string, scheme: string, rest: string)
    requires |scheme| == SkippedPrefixLength
    ensures GetAuth(headers[HeaderName := scheme + rest], lenient) ==
            GetAuth(headers[HeaderName := "Basic " + rest], lenient)
  {
    assert (scheme + rest)[SkippedPrefixLength..] == rest;
    assert ("Basic " + rest)[SkippedPrefixLength..] == rest;
  }

  /** A header built by `createAuthHeader(u, p)` reads back as the text
      `u:p`, split at its first colon, whatever Node's lenient decoders do. */
  lemma GetAuthOfCreateAuthHeader(headers: map<string, string>, lenient: string -> string, username: string, password: string)
    ensures GetAuth(headers[HeaderName := CreateAuthHeader(username, password)], lenient)
            == MatchUserPass(username + ":" + password)
  {
    var h := CreateAuthHeader(username, password);
    assert Payload(h) == h[SkippedPrefixLength..];
  }

  /** The round trip: `getAuth` returns exactly the credentials that
      `createAuthHeader` encoded if and only if the username is non-empty
      and colon-free and the password is non-empty and free of line terminators. */
  lemma AuthHeaderRoundTrip(headers: map<string, string>, lenient: string -> string, username: string, password: string)
    ensures GetAuth(headers[HeaderName := CreateAuthHeader(username, password)], lenient)
              == Some(Credentials(username, password))
            <==> username != "" && ':' !in username && password != "" && !HasLineTerminator(password)
  {
    GetAuthOfCreateAuthHeader(headers, lenient, username, password);
    if username != "" && ':' !in username && password != "" && !HasLineTerminator(password) {
      MatchUserPassAtFirstColon(username, password);
    }
  }

  /** Colons in the username are not escaped: the first of them becomes the
      split point and the rest of the username moves into the password. */
  lemma ColonInUsernameMovesToPassword(headers: map<string, string>, lenient: string -> string,
                                       head: string, tail: string, password: string)
    requires head != "" && ':' !in head && !HasLineTerminator(tail + ":" + password)
    ensures GetAuth(headers[HeaderName := CreateAuthHeader(head + ":" + tail, password)], lenient)
            == Some(Credentials(head, tail + ":" + password))
  {
    GetAuthOfCreateAuthHeader(headers, lenient, head + ":" + tail, password);
    MatchUserPassRegroup(head, tail, password);
  }

  lemma MatchUserPassRegroup(head: string, tail: string, password: string)
    requires head != "" && ':' !in head && !HasLineTerminator(tail + ":" + password)
    ensures MatchUserPass((head + ":" + tail) + ":" + password) == Some(Credentials(head, tail + ":" + password))
  {
    assert (head + ":" + tail) + ":" + password == head + ":" + (tail + ":" + password);
    MatchUserPassAtFirstColon(head, tail + ":" + password);
  }
}
