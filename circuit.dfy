/** Per-request circuits: the manager's list of open circuit ids, the scheme /
    authority / path split of a URL, and the HTTP/1.1 request text written onto a
    circuit (section 3 of RFC 9112; the Host field of section 7.2 and the
    Content-Length field of section 8.6 of RFC 9110). */
module Circuits {
  import opened Ints
  import opened Wrappers
  import opened Text
  import opened Lines
  import opened Bytes
  import opened NetworkErrors
  import opened TorIntegration
  import opened TlsFingerprint

  // ---------------------------------------------------------------- URL split

  datatype ParsedUrl = ParsedUrl(host: string, port: u16, path: string)

  const HTTPS_SCHEME: string := "https://"
  const DEFAULT_HTTPS_PORT: u16 := 443

  /** The authority (everything up to the first '/') and the path (from that '/' on,
      or "/" when there is none). */
  function SplitPath(rest: string): (r: (string, string))
    ensures '/' !in r.0 && |r.1| > 0 && r.1[0] == '/'
    ensures rest == r.0 + r.1 || ('/' !in rest && r == (rest, "/"))
  {
    match FindFirst(rest, '/')
    case Some(i) => (rest[..i], rest[i..])
    case None => (rest, "/")
  }

  /** `parse_url`: strip "https://", split off the path, then split the authority at
      its last ':' into host and a `u16` port (443 when there is no ':'). */
  function ParseUrl(url: string): (r: Result<ParsedUrl, NetworkError>)
    ensures !StartsWith(url, HTTPS_SCHEME) <==> r == Failure(InvalidUrl("Not HTTPS"))
    ensures r.Failure? ==> r.error == InvalidUrl("Not HTTPS") || r.error == InvalidUrl("Invalid port")
    ensures r.Success? ==> |r.value.path| > 0 && r.value.path[0] == '/' && '/' !in r.value.host
  {
    if !StartsWith(url, HTTPS_SCHEME) then Failure(InvalidUrl("Not HTTPS"))
    else
      var (authority, path) := SplitPath(url[|HTTPS_SCHEME|..]);
      match FindLast(authority, ':')
      case Some(i) =>
        (match ParseU16(authority[i + 1..])
         case None => Failure(InvalidUrl("Invalid port"))
         case Some(port) => Success(ParsedUrl(authority[..i], port, path)))
      case None => Success(ParsedUrl(authority, DEFAULT_HTTPS_PORT, path))
  }

  /** The path the parser reports for a URL tail: the tail itself, or "/" if empty. */
  function ReportedPath(path: string): string
  {
    if path == "" then "/" else path
  }

  /** What is split off after the authority: nothing, or a path starting with '/'. */
  predicate IsPathPart(path: string)
  {
    path == "" || path[0] == '/'
  }

  lemma SplitPathOf(authority: string, path: string)
    requires '/' !in authority && IsPathPart(path)
    ensures SplitPath(authority + path) == (authority, ReportedPath(path))
  {
    var rest := authority + path;
    if path == "" {
      assert rest == authority;
      FindFirstAbsent(rest, '/');
    } else {
      assert rest[..|authority|] == authority;
      FindFirstAt(rest, '/', |authority|);
      assert rest[|authority|..] == path;
    }
  }

  lemma SchemeRest(rest: string)
    ensures StartsWith(HTTPS_SCHEME + rest, HTTPS_SCHEME)
    ensures (HTTPS_SCHEME + rest)[|HTTPS_SCHEME|..] == rest
  {
    assert (HTTPS_SCHEME + rest)[..|HTTPS_SCHEME|] == HTTPS_SCHEME;
  }

  /** An authority with an explicit port: the host is read back unchanged (it may
      itself hold ':' characters, since the split is at the last one) and so is the
      port, written in decimal. */
  lemma ParseUrlWithPort(host: string, port: u16, path: string)
    requires '/' !in host && IsPathPart(path)
    ensures ParseUrl(HTTPS_SCHEME + host + ":" + Decimal(port) + path)
         == Success(ParsedUrl(host, port, ReportedPath(path)))
  {
    var authority := host + ":" + Decimal(port);
    assert HTTPS_SCHEME + host + ":" + Decimal(port) + path == HTTPS_SCHEME + (authority + path);
    AuthorityWithPort(host, port);
    SchemeRest(authority + path);
    SplitPathOf(authority, path);
  }

  /** The last ':' of `host:port` is the one before the port, which reads back. */
  lemma AuthorityWithPort(host: string, port: u16)
    requires '/' !in host
    ensures var authority := host + ":" + Decimal(port);
      && '/' !in authority
      && FindLast(authority, ':') == Some(|host|)
      && authority[..|host|] == host
      && ParseU16(authority[|host| + 1..]) == Some(port as nat)
  {
    var authority := host + ":" + Decimal(port);
    assert authority[|host| + 1..] == Decimal(port);
    assert ':' !in Decimal(port) && '/' !in Decimal(port);
    FindLastAt(authority, ':', |host|);
    assert authority[..|host|] == host;
    DecimalParsesBack(port as nat);
  }

  /** An authority without ':': the whole authority is the host, on port 443. */
  lemma ParseUrlDefaultPort(host: string, path: string)
    requires '/' !in host && ':' !in host && IsPathPart(path)
    ensures ParseUrl(HTTPS_SCHEME + host + path) == Success(ParsedUrl(host, 443, ReportedPath(path)))
  {
    assert HTTPS_SCHEME + host + path == HTTPS_SCHEME + (host + path);
    SchemeRest(host + path);
    SplitPathOf(host, path);
    FindLastAbsent(host, ':');
  }

  /** A port text after the last ':' that is not a `u16` (empty, not decimal, or
      above 65535) is rejected. */
  lemma ParseUrlBadPort(host: string, portText: string, path: string)
    requires '/' !in host && '/' !in portText && ':' !in portText && IsPathPart(path)
    requires ParseU16(portText).None?
    ensures ParseUrl(HTTPS_SCHEME + host + ":" + portText + path) == Failure(InvalidUrl("Invalid port"))
  {
    var authority := host + ":" + portText;
    assert HTTPS_SCHEME + host + ":" + portText + path == HTTPS_SCHEME + (authority + path);
    SchemeRest(authority + path);
    SplitPathOf(authority, path);
    assert authority[|host| + 1..] == portText;
    FindLastAt(authority, ':', |host|);
  }

  /** The pieces of the URLs of the source's tests. */
  lemma ExampleHost()
    ensures '/' !in "example.com" && ':' !in "example.com"
  {
  }

  lemma ExampleUrlWithPath()
    ensures HTTPS_SCHEME + "example.com" + "/path" == "https://example.com/path"
  {
  }

  lemma ExampleUrlWithoutPath()
    ensures HTTPS_SCHEME + "example.com" + "" == "https://example.com"
  {
  }

  lemma ExampleUrlWithPort()
    ensures HTTPS_SCHEME + "example.com" + ":" + Decimal(8443) + "/path" == "https://example.com:8443/path"
  {
    ExamplePortDigits();
  }

  lemma ExamplePortDigits()
    ensures Decimal(8443) == "8443"
  {
    assert Decimal(8) == "8";
    assert Decimal(84) == Decimal(8) + "4";
    assert Decimal(844) == Decimal(84) + "4";
  }

  /** The examples of the source's tests: a path and the default port, ... */
  lemma ParseUrlSimpleExample()
    ensures ParseUrl("https://example.com/path") == Success(ParsedUrl("example.com", 443, "/path"))
  {
    ExampleHost();
    ExampleUrlWithPath();
    ParseUrlDefaultPort("example.com", "/path");
  }

  /** ... an explicit port, ... */
  lemma ParseUrlPortExample()
    ensures ParseUrl("https://example.com:8443/path") == Success(ParsedUrl("example.com", 8443, "/path"))
  {
    ExampleHost();
    ExampleUrlWithPort();
    ParseUrlWithPort("example.com", 8443, "/path");
  }

  /** ... no path at all, ... */
  lemma ParseUrlNoPathExample()
    ensures ParseUrl("https://example.com") == Success(ParsedUrl("example.com", 443, "/"))
  {
    ExampleHost();
    ExampleUrlWithoutPath();
    ParseUrlDefaultPort("example.com", "");
  }

  /** ... and a plain-HTTP URL, which is refused. */
  lemma ParseUrlRejectsHttp()
    ensures ParseUrl("http://example.com") == Failure(InvalidUrl("Not HTTPS"))
  {
    assert "http://example.com"[4] != HTTPS_SCHEME[4];
  }

  // ---------------------------------------------------------------- request text

  function RequestLine(verb: string, path: string): string
  {
    verb + " " + path + " HTTP/1.1\r\n"
  }

  function HostLine(host: string): string
  {
    "Host: " + host + "\r\n"
  }

  function HeaderLine(h: Header): string
  {
    h.0 + ": " + h.1 + "\r\n"
  }

  function ContentLengthLine(n: nat): string
  {
    "Content-Length: " + Decimal(n) + "\r\n"
  }

  /** One field line per header, in the order given. */
  function HeaderLines(headers: seq<Header>): (ls: seq<string>)
    ensures |ls| == |headers|
    ensures forall i :: 0 <= i < |headers| ==> ls[i] == HeaderLine(headers[i])
  {
    seq(|headers|, i requires 0 <= i < |headers| => HeaderLine(headers[i]))
  }

  /** The lines of the request head: request line, Host, the given fields, a
      Content-Length field when there is a body, and the empty line. */
  function RequestLines(verb: string, p: ParsedUrl, headers: seq<Header>, body: Option<seq<byte>>): seq<string>
  {
    [RequestLine(verb, p.path), HostLine(p.host)] + HeaderLines(headers)
    + (if body.Some? then [ContentLengthLine(|body.value|)] else [])
    + ["\r\n"]
  }

  /** The bytes handed to the transport: the UTF-8 head, then the body unchanged. */
  function RequestBytes(verb: string, p: ParsedUrl, headers: seq<Header>, body: Option<seq<byte>>): seq<byte>
  {
    var head := Utf8(Render(RequestLines(verb, p, headers, body)));
    if body.Some? then head + body.value else head
  }

  lemma HeaderLinesSnoc(headers: seq<Header>, i: nat)
    requires i < |headers|
    ensures HeaderLines(headers[..i + 1]) == HeaderLines(headers[..i]) + [HeaderLine(headers[i])]
  {
  }

  lemma RenderTwo(a: string, b: string)
    ensures Render([a, b]) == a + b
  {
    RenderOntoSnoc("", [a], b);
    RenderOntoSnoc("", [], a);
    assert [a] + [b] == [a, b];
  }

  /** `build_http_request`: formats the first two lines, appends one line per header
      in a loop, then the Content-Length line and the empty line; the body bytes are
      appended to the encoded text. Never fails. */
  method BuildHttpRequest(verb: string, p: ParsedUrl, headers: seq<Header>, body: Option<seq<byte>>)
    returns (r: Result<seq<byte>, NetworkError>)
    ensures r == Success(RequestBytes(verb, p, headers, body))
  {
    var request := RequestLine(verb, p.path) + HostLine(p.host);
    ghost var head := [RequestLine(verb, p.path), HostLine(p.host)];
    RenderTwo(head[0], head[1]);
    var i := 0;
    while i < |headers|
      invariant 0 <= i <= |headers|
      invariant request == RenderOnto(Render(head), HeaderLines(headers[..i]))
    {
      HeaderLinesSnoc(headers, i);
      RenderOntoSnoc(Render(head), HeaderLines(headers[..i]), HeaderLine(headers[i]));
      request := request + HeaderLine(headers[i]);
      i := i + 1;
    }
    assert headers[..i] == headers;
    ghost var tail: seq<string> := [];
    if body.Some? {
      request := request + ContentLengthLine(|body.value|);
      tail := [ContentLengthLine(|body.value|)];
    }
    request := request + "\r\n";
    RequestLinesRender(verb, p, headers, body, tail);
    var bytes := Utf8(request);
    if body.Some? {
      bytes := bytes + body.value;
    }
    r := Success(bytes);
  }

  lemma RequestLinesRender(verb: string, p: ParsedUrl, headers: seq<Header>, body: Option<seq<byte>>, tail: seq<string>)
    requires tail == if body.Some? then [ContentLengthLine(|body.value|)] else []
    ensures body.Some? ==>
      Render(RequestLines(verb, p, headers, body))
      == RenderOnto(Render([RequestLine(verb, p.path), HostLine(p.host)]), HeaderLines(headers))
         + ContentLengthLine(|body.value|) + "\r\n"
    ensures body.None? ==>
      Render(RequestLines(verb, p, headers, body))
      == RenderOnto(Render([RequestLine(verb, p.path), HostLine(p.host)]), HeaderLines(headers)) + "\r\n"
  {
    var head := [RequestLine(verb, p.path), HostLine(p.host)];
    var hs := HeaderLines(headers);
    RenderOntoAppend("", head, hs);
    RenderOntoAppend("", head + hs, tail);
    RenderOntoSnoc("", head + hs + tail, "\r\n");
    if body.Some? {
      RenderOntoSnoc(RenderOnto("", head + hs), [], tail[0]);
      assert [] + [tail[0]] == tail;
    }
  }

  /** The text begins with the request line and the Host line. */
  lemma RequestStartsWithRequestLine(verb: string, p: ParsedUrl, headers: seq<Header>, body: Option<seq<byte>>)
    ensures StartsWith(Render(RequestLines(verb, p, headers, body)),
                       verb + " " + p.path + " HTTP/1.1\r\nHost: " + p.host + "\r\n")
  {
    var ls := RequestLines(verb, p, headers, body);
    RenderPrefix("", ls, 2);
    assert ls[..2] == [RequestLine(verb, p.path), HostLine(p.host)];
    RenderTwo(ls[0], ls[1]);
    assert RequestLine(verb, p.path) + HostLine(p.host)
        == verb + " " + p.path + " HTTP/1.1\r\nHost: " + p.host + "\r\n";
  }

  /** The header fields follow in the order given: for every `k`, the text begins with
      the first two lines and then the lines of the first `k` headers. */
  lemma RequestHeadersInOrder(verb: string, p: ParsedUrl, headers: seq<Header>, body: Option<seq<byte>>, k: nat)
    requires k <= |headers|
    ensures StartsWith(Render(RequestLines(verb, p, headers, body)),
                       RenderOnto(Render([RequestLine(verb, p.path), HostLine(p.host)]), HeaderLines(headers[..k])))
  {
    var head := [RequestLine(verb, p.path), HostLine(p.host)];
    var ls := RequestLines(verb, p, headers, body);
    RenderPrefix("", ls, 2 + k);
    assert ls[..2 + k] == head + HeaderLines(headers[..k]);
    RenderOntoAppend("", head, HeaderLines(headers[..k]));
  }

  /** The request line is written out. */
  lemma RequestContainsRequestLine(verb: string, p: ParsedUrl, headers: seq<Header>, body: Option<seq<byte>>)
    ensures Contains(Render(RequestLines(verb, p, headers, body)), verb + " " + p.path + " HTTP/1.1\r\n")
  {
    var ls := RequestLines(verb, p, headers, body);
    RenderContainsLine("", ls, 0);
  }

  /** The Host field carries the parsed host. */
  lemma RequestContainsHost(verb: string, p: ParsedUrl, headers: seq<Header>, body: Option<seq<byte>>)
    ensures Contains(Render(RequestLines(verb, p, headers, body)), "Host: " + p.host + "\r\n")
  {
    var ls := RequestLines(verb, p, headers, body);
    RenderContainsLine("", ls, 1);
  }

  /** Every header is written as one "name: value" field line. */
  lemma RequestContainsHeader(verb: string, p: ParsedUrl, headers: seq<Header>, body: Option<seq<byte>>, k: nat)
    requires k < |headers|
    ensures Contains(Render(RequestLines(verb, p, headers, body)), headers[k].0 + ": " + headers[k].1 + "\r\n")
  {
    var ls := RequestLines(verb, p, headers, body);
    assert ls[2 + k] == HeaderLine(headers[k]);
    RenderContainsLine("", ls, 2 + k);
  }

  /** The line after the header fields is a Content-Length line carrying the body's
      length exactly when a body is given; otherwise it is the empty line that ends
      the head. */
  lemma ContentLengthIffBody(verb: string, p: ParsedUrl, headers: seq<Header>, body: Option<seq<byte>>)
    ensures var ls := RequestLines(verb, p, headers, body);
      && (body.Some? <==> StartsWith(ls[2 + |headers|], "Content-Length: "))
      && (body.Some? ==> ls[2 + |headers|] == "Content-Length: " + Decimal(|body.value|) + "\r\n")
      && (body.None? ==> ls[2 + |headers|] == "\r\n")
  {
  }

  /** The head ends with an empty line, and the body follows it byte for byte. */
  lemma RequestEndsWithBody(verb: string, p: ParsedUrl, headers: seq<Header>, body: Option<seq<byte>>)
    ensures EndsWith(Render(RequestLines(verb, p, headers, body)), "\r\n\r\n")
    ensures var bytes := RequestBytes(verb, p, headers, body);
      var text := Utf8(Render(RequestLines(verb, p, headers, body)));
      && bytes[..|text|] == text
      && bytes[|text|..] == (if body.Some? then body.value else [])
  {
    var ls := RequestLines(verb, p, headers, body);
    RequestLinesEnd(verb, p, headers, body);
    RenderEndsWithBlank(ls);
    HeadThenBody(Utf8(Render(ls)), body);
  }

  /** A request's lines end with a terminated line and then the empty line. */
  lemma RequestLinesEnd(verb: string, p: ParsedUrl, headers: seq<Header>, body: Option<seq<byte>>)
    ensures var ls := RequestLines(verb, p, headers, body);
      |ls| >= 2 && ls[|ls| - 1] == "\r\n" && EndsWith(ls[|ls| - 2], "\r\n")
  {
  }

  /** Lines whose last is the empty line and whose last but one is terminated render
      to text ending in a blank line. */
  lemma RenderEndsWithBlank(ls: seq<string>)
    requires |ls| >= 2 && ls[|ls| - 1] == "\r\n" && EndsWith(ls[|ls| - 2], "\r\n")
    ensures EndsWith(Render(ls), "\r\n\r\n")
  {
    var n := |ls|;
    RenderOntoSnoc("", ls[..n - 1], ls[n - 1]);
    assert ls[..n - 1] + [ls[n - 1]] == ls;
    var before := Render(ls[..n - 1]);
    var last := ls[n - 2];
    assert ls[..n - 1] == ls[..n - 2] + [last];
    RenderOntoSnoc("", ls[..n - 2], last);
    assert before[|before| - 2..] == last[|last| - 2..];
  }

  /** The head comes first, then the body bytes, if any. */
  lemma HeadThenBody(head: seq<byte>, body: Option<seq<byte>>)
    ensures var bytes := if body.Some? then head + body.value else head;
      bytes[..|head|] == head && bytes[|head|..] == (if body.Some? then body.value else [])
  {
  }

  /** The example of the source's tests: a GET of "/test" on example.com with one
      User-Agent field and no body. */
  function ExampleRequestText(): string
  {
    Render(RequestLines("GET", ParsedUrl("example.com", 443, "/test"), [("User-Agent", "Test/1.0")], None))
  }

  lemma ExampleLineStarts()
    ensures StartsWith("GET" + " " + "/test" + " HTTP/1.1\r\n", "GET /test HTTP/1.1")
    ensures StartsWith("Host: " + "example.com" + "\r\n", "Host: example.com")
    ensures StartsWith("User-Agent" + ": " + "Test/1.0" + "\r\n", "User-Agent: Test/1.0")
  {
    assert ("GET" + " " + "/test" + " HTTP/1.1\r\n")[..18] == "GET /test HTTP/1.1";
    assert ("Host: " + "example.com" + "\r\n")[..17] == "Host: example.com";
    assert ("User-Agent" + ": " + "Test/1.0" + "\r\n")[..20] == "User-Agent: Test/1.0";
  }

  lemma ExampleHasRequestLine(text: string)
    requires text == ExampleRequestText()
    ensures Contains(text, "GET /test HTTP/1.1")
  {
    RequestContainsRequestLine("GET", ParsedUrl("example.com", 443, "/test"), [("User-Agent", "Test/1.0")], None);
    ExampleLineStarts();
    ContainsStartOf(text, "GET" + " " + "/test" + " HTTP/1.1\r\n", "GET /test HTTP/1.1");
  }

  lemma ExampleHasHost(text: string)
    requires text == ExampleRequestText()
    ensures Contains(text, "Host: example.com")
  {
    RequestContainsHost("GET", ParsedUrl("example.com", 443, "/test"), [("User-Agent", "Test/1.0")], None);
    ExampleLineStarts();
    ContainsStartOf(text, "Host: " + "example.com" + "\r\n", "Host: example.com");
  }

  lemma ExampleHasUserAgent(text: string)
    requires text == ExampleRequestText()
    ensures Contains(text, "User-Agent: Test/1.0")
  {
    RequestContainsHeader("GET", ParsedUrl("example.com", 443, "/test"), [("User-Agent", "Test/1.0")], None, 0);
    ExampleLineStarts();
    ContainsStartOf(text, "User-Agent" + ": " + "Test/1.0" + "\r\n", "User-Agent: Test/1.0");
  }

  /** The request text of the example holds its request line, Host field and header. */
  lemma BuildRequestExample()
    ensures Contains(ExampleRequestText(), "GET /test HTTP/1.1")
    ensures Contains(ExampleRequestText(), "Host: example.com")
    ensures Contains(ExampleRequestText(), "User-Agent: Test/1.0")
  {
    ExampleHasRequestLine(ExampleRequestText());
    ExampleHasHost(ExampleRequestText());
    ExampleHasUserAgent(ExampleRequestText());
  }

  // ---------------------------------------------------------------- circuits

  /** `RawResponse`. */
  datatype RawResponse = RawResponse(status: u16, headers: seq<Header>, body: seq<byte>)

  /** How the transport call under `tokio::time::timeout` ended: the time ran out, or
      the call completed with a result. */
  datatype TransportOutcome = Elapsed | Completed(result: Result<RawResponse, NetworkError>)

  /** The response the request yields for a transport outcome. */
  function AwaitTransport(outcome: TransportOutcome): (r: Result<RawResponse, NetworkError>)
    ensures outcome.Elapsed? ==> r == Failure(Timeout)
    ensures outcome.Completed? ==> r == outcome.result
  {
    match outcome
    case Elapsed => Failure(Timeout)
    case Completed(result) => result
  }

  /** `Circuit`: one circuit id, used for one request. */
  class Circuit {
    const id: string
    const controller: TorController

    constructor (id: string, controller: TorController)
      ensures this.id == id && this.controller == controller
    {
      this.id := id;
      this.controller := controller;
    }

    /** `Circuit::request`: parse the URL (its error is returned before anything is
        sent), build the request bytes and hand them to the transport. The
        transport's outcome is a parameter; `sent` is what it was given. */
    method Request(verb: string, url: string, headers: seq<Header>, body: Option<seq<byte>>,
                   tls: TlsConfig, outcome: TransportOutcome)
      returns (r: Result<RawResponse, NetworkError>, sent: Option<seq<byte>>)
      ensures ParseUrl(url).Failure? ==> r == Failure(ParseUrl(url).error) && sent == None
      ensures ParseUrl(url).Success? ==>
        && sent == Some(RequestBytes(verb, ParseUrl(url).value, headers, body))
        && r == AwaitTransport(outcome)
    {
      var parsed := ParseUrl(url);
      if parsed.Failure? {
        return Failure(parsed.error), None;
      }
      var request := BuildHttpRequest(verb, parsed.value, headers, body);
      sent := Some(request.value);
      r := AwaitTransport(outcome);
    }
  }

  /** `CircuitManager`: the controller and the ids of the circuits created so far. */
  class CircuitManager {
    const controller: TorController
    var activeCircuits: seq<string>

    constructor (controller: TorController)
      ensures this.controller == controller && activeCircuits == []
    {
      this.controller := controller;
      activeCircuits := [];
    }

    /** `create_new_circuit`, with the controller's `new_circuit` reply as a parameter:
        an error is passed on with the list unchanged; otherwise the new id is tracked
        and a circuit with that id is returned. */
    method CreateNewCircuit(reply: Result<string, NetworkError>) returns (r: Result<Circuit, NetworkError>)
      modifies this
      ensures reply.Failure? ==> r == Failure(reply.error) && activeCircuits == old(activeCircuits)
      ensures reply.Success? ==>
        && r.Success? && fresh(r.value)
        && r.value.id == reply.value && r.value.controller == controller
        && activeCircuits == old(activeCircuits) + [reply.value]
    {
      if reply.Failure? {
        return Failure(reply.error);
      }
      var id := reply.value;
      activeCircuits := activeCircuits + [id];
      var c := new Circuit(id, controller);
      r := Success(c);
    }

    /** `close_all`: takes the whole list, leaving it empty, and asks the controller to
        close each id in turn, ignoring the outcome; always succeeds. */
    method CloseAll() returns (r: Result<(), NetworkError>)
      modifies this, controller
      ensures activeCircuits == []
      ensures controller.closeRequests == old(controller.closeRequests) + old(activeCircuits)
      ensures r == Success(())
    {
      var circuits := activeCircuits;
      activeCircuits := [];
      var i := 0;
      while i < |circuits|
        invariant 0 <= i <= |circuits|
        invariant activeCircuits == []
        invariant controller.closeRequests == old(controller.closeRequests) + circuits[..i]
      {
        var _ := controller.CloseCircuit(circuits[i]);
        assert circuits[..i + 1] == circuits[..i] + [circuits[i]];
        i := i + 1;
      }
      assert circuits[..i] == circuits;
      r := Success(());
    }
  }
}
