/** The anonymized network layer: its configuration, the sanitising of response
    headers, and `request`, the fixed sequence of steps every request goes through.
    The collaborators whose outcome the model cannot compute are parameters of the
    request: the controller's reply to the new-circuit request and the outcome of
    the transport call. Each step that happens is recorded, in order, in a trace. */
module Network {
  import opened Ints
  import opened Wrappers
  import opened Text
  import opened Seqs
  import opened Bytes
  import opened NetworkErrors
  import opened Headers
  import opened TrafficShaping
  import opened TlsFingerprint
  import opened TorIntegration
  import opened Circuits

  // ---------------------------------------------------------------- configuration

  datatype NetworkConfig = NetworkConfig(
    minPaddingBytes: usize,
    maxPaddingBytes: usize,
    minJitterMs: u64,
    maxJitterMs: u64,
    torSocksPort: u16,
    torControlPort: u16,
    requestTimeoutSecs: nat,
    newCircuitPerRequest: bool)

  /** The ranges the random draws of a request are taken from are not empty, so no
      draw panics. */
  predicate RangesUsable(c: NetworkConfig)
  {
    c.minPaddingBytes <= c.maxPaddingBytes && c.minJitterMs <= c.maxJitterMs
  }

  /** `NetworkConfig::default`. */
  function DefaultNetworkConfig(): (c: NetworkConfig)
    ensures c.newCircuitPerRequest
    ensures c.minPaddingBytes == 256 && c.maxPaddingBytes == 2048
    ensures c.minJitterMs == 0 && c.maxJitterMs == 50
    ensures c.torSocksPort == 9150 && c.torControlPort == 9151 && c.requestTimeoutSecs == 60
    ensures RangesUsable(c)
  {
    NetworkConfig(256, 2048, 0, 50, 9150, 9151, 60, true)
  }

  /** The embedded Tor ports of the default configuration are those of the default
      torrc. */
  lemma DefaultPortsMatchTorrc()
    ensures DefaultNetworkConfig().torSocksPort == DefaultTorConfig().socksPort
    ensures DefaultNetworkConfig().torControlPort == DefaultTorConfig().controlPort
  {
  }

  // ---------------------------------------------------------------- response headers

  const TRACKING_RESPONSE_HEADERS: seq<string> := [
    "set-cookie", "set-cookie2", "etag", "last-modified", "x-request-id",
    "x-correlation-id", "x-amzn-requestid", "cf-ray", "x-cache", "x-served-by",
    "x-timer", "x-trace-id"]

  /** The `filter` test of `sanitize_response_headers`. */
  predicate KeepResponseHeader(h: Header)
  {
    Lower(h.0) !in TRACKING_RESPONSE_HEADERS
  }

  /** `sanitize_response_headers`: a `retain` that keeps only headers off the
      tracking list. */
  function SanitizeResponseHeaders(headers: seq<Header>): seq<Header>
  {
    Filter(headers, KeepResponseHeader)
  }

  /** A header survives exactly when its name, in any capitalisation, is not one of
      the twelve tracking names; it survives with its value. */
  lemma SanitizeRemovesExactlyTracking(headers: seq<Header>, h: Header)
    ensures h in SanitizeResponseHeaders(headers) <==> h in headers && Lower(h.0) !in TRACKING_RESPONSE_HEADERS
  {
    FilterMembership(headers, KeepResponseHeader, h);
  }

  /** The survivors keep their order, and sanitising twice is sanitising once. */
  lemma SanitizeIsIdempotentSubsequence(headers: seq<Header>)
    ensures IsSubsequence(SanitizeResponseHeaders(headers), headers)
    ensures SanitizeResponseHeaders(SanitizeResponseHeaders(headers)) == SanitizeResponseHeaders(headers)
    ensures |SanitizeResponseHeaders(headers)| <= |headers|
  {
    FilterIsSubsequence(headers, KeepResponseHeader);
    FilterIdempotent(headers, KeepResponseHeader);
  }

  lemma ContentTypeKept(v: string)
    ensures KeepResponseHeader(("content-type", v))
  {
    assert Lower("content-type") == "content-type";
  }

  lemma ContentLengthKept(v: string)
    ensures KeepResponseHeader(("content-length", v))
  {
    assert Lower("content-length") == "content-length";
  }

  lemma SetCookieDropped(v: string)
    ensures !KeepResponseHeader(("set-cookie", v))
  {
    assert Lower("set-cookie") == TRACKING_RESPONSE_HEADERS[0];
  }

  lemma EtagDropped(v: string)
    ensures !KeepResponseHeader(("etag", v))
  {
    assert Lower("etag") == TRACKING_RESPONSE_HEADERS[2];
  }

  /** The example of the source's tests. */
  lemma SanitizeExample()
    ensures SanitizeResponseHeaders([("content-type", "text/html"), ("set-cookie", "tracking=bad"),
                                     ("etag", "\"abc123\""), ("content-length", "1234")])
         == [("content-type", "text/html"), ("content-length", "1234")]
  {
    ContentTypeKept("text/html");
    SetCookieDropped("tracking=bad");
    EtagDropped("\"abc123\"");
    ContentLengthKept("1234");
    FilterFirstAndLast(("content-type", "text/html"), ("set-cookie", "tracking=bad"),
                       ("etag", "\"abc123\""), ("content-length", "1234"), KeepResponseHeader);
  }

  // ---------------------------------------------------------------- request

  datatype NetworkResponse = NetworkResponse(status: u16, headers: seq<Header>, body: seq<byte>, circuitId: string)

  /** One effect of `request`, in the order they happen. */
  datatype Step =
    | Jitter(sleep: Option<nat>)
    | CircuitRequested
    | HeadersGenerated(headers: SyntheticHeaders)
    | BodyPadded(drawn: nat)
    | TlsConfigured(config: TlsConfig)
    | Sent(request: seq<byte>)
    | Sanitized(kept: seq<Header>)

  /** The text before the first ':', which the protocol error reports. */
  function SchemeOf(url: string): (scheme: string)
    ensures StartsWith(url, scheme) && ':' !in scheme
    ensures scheme == url || url[|scheme|] == ':'
  {
    SplitFirstPiece(url, ':');
    Split(url, ':')[0]
  }

  /** The steps up to the TLS configuration, after the circuit was created: jitter,
      circuit, headers drawn from the anonymity set, the padding draw when there is a
      body, the Tor Browser TLS profile. */
  predicate PreparedSteps(steps: seq<Step>, shaper: TrafficShaper, body: Option<seq<byte>>)
  {
    var k := if body.Some? then 5 else 4;
    && |steps| >= k
    && steps[0].Jitter? && JitterAllowed(shaper, steps[0].sleep)
    && steps[1] == CircuitRequested
    && PreparedTail(steps[2..k], shaper, body)
  }

  /** The steps between the circuit and the sending: headers, padding draw, TLS. */
  predicate PreparedTail(tail: seq<Step>, shaper: TrafficShaper, body: Option<seq<byte>>)
  {
    && |tail| == (if body.Some? then 3 else 2)
    && tail[0].HeadersGenerated? && IsGenerated(tail[0].headers)
    && (body.Some? ==> tail[1].BodyPadded? && shaper.minPadding <= tail[1].drawn <= shaper.maxPadding)
    && tail[|tail| - 1] == TlsConfigured(TorBrowserConfig())
  }

  /** A trace that starts with a jitter and the circuit request, followed by a
      prepared tail, is prepared, whatever comes after. */
  lemma PreparedFrom(sleep: Option<nat>, tail: seq<Step>, rest: seq<Step>, shaper: TrafficShaper, body: Option<seq<byte>>)
    requires JitterAllowed(shaper, sleep) && PreparedTail(tail, shaper, body)
    ensures PreparedSteps([Jitter(sleep), CircuitRequested] + tail + rest, shaper, body)
    ensures ([Jitter(sleep), CircuitRequested] + tail + rest)[2] == tail[0]
    ensures ([Jitter(sleep), CircuitRequested] + tail + rest)[2 + |tail|..] == rest
  {
    var steps := [Jitter(sleep), CircuitRequested] + tail + rest;
    assert steps[2..2 + |tail|] == tail;
  }

  /** What the request on the circuit leaves behind: an unparseable URL fails
      before anything is sent; otherwise the request text is sent, and a response,
      when one comes back, has its headers sanitised and is followed by a jitter. */
  predicate Exchanged(r: Result<NetworkResponse, NetworkError>, rest: seq<Step>, shaper: TrafficShaper,
                      verb: string, url: string, headers: seq<Header>, body: Option<seq<byte>>,
                      outcome: TransportOutcome, circuitId: string)
  {
    && (ParseUrl(url).Failure? ==> r == Failure(ParseUrl(url).error) && rest == [])
    && (ParseUrl(url).Success? ==>
          && |rest| > 0
          && rest[0] == Sent(RequestBytes(verb, ParseUrl(url).value, headers, body))
          && (AwaitTransport(outcome).Failure? ==> r == Failure(AwaitTransport(outcome).error) && |rest| == 1)
          && (AwaitTransport(outcome).Success? ==>
                var raw := AwaitTransport(outcome).value;
                && r == Success(NetworkResponse(raw.status, SanitizeResponseHeaders(raw.headers), raw.body, circuitId))
                && |rest| == 3
                && rest[1] == Sanitized(SanitizeResponseHeaders(raw.headers))
                && rest[2].Jitter? && JitterAllowed(shaper, rest[2].sleep)))
  }

  /** `AnonymizedNetwork`. */
  class AnonymizedNetwork {
    const config: NetworkConfig
    const controller: TorController
    const circuits: CircuitManager
    const shaper: TrafficShaper
    const tls: TlsFingerprintNormalizer

    /** The shaper is built from the configuration and the TLS profile is Tor
        Browser's. */
    predicate Valid()
    {
      && shaper == TrafficShaper(config.minPaddingBytes, config.maxPaddingBytes, config.minJitterMs, config.maxJitterMs)
      && tls == NewNormalizer()
    }

    /** `AnonymizedNetwork::new`, without starting the Tor daemon. */
    constructor (config: NetworkConfig)
      ensures this.config == config
      ensures fresh(controller) && controller.socksPort == config.torSocksPort
      ensures controller.controlPort == config.torControlPort
      ensures fresh(circuits) && circuits.controller == controller && circuits.activeCircuits == []
      ensures Valid()
    {
      this.config := config;
      var c := new TorController(config.torSocksPort, config.torControlPort);
      controller := c;
      circuits := new CircuitManager(c);
      shaper := TrafficShaper(config.minPaddingBytes, config.maxPaddingBytes, config.minJitterMs, config.maxJitterMs);
      tls := NewNormalizer();
    }

    /** The middle of `request`: synthetic headers, the padding draw when there is a
        body (the body itself is sent unchanged), and the connection's TLS profile. */
    method Prepare(body: Option<seq<byte>>)
      returns (headers: SyntheticHeaders, padded: Option<seq<byte>>, tlsConfig: TlsConfig, tail: seq<Step>)
      requires Valid() && (body.Some? ==> shaper.minPadding <= shaper.maxPadding)
      ensures PreparedTail(tail, shaper, body) && tail[0] == HeadersGenerated(headers)
      ensures padded == body && tlsConfig == TorBrowserConfig()
    {
      headers := Headers.Generate();
      tail := [HeadersGenerated(headers)];
      padded := None;
      if body.Some? {
        var p, drawn := PadRequest(shaper, body.value);
        padded := Some(p);
        tail := tail + [BodyPadded(drawn)];
      }
      var created := CreateConfig(tls);
      tlsConfig := created.value;
      tail := tail + [TlsConfigured(tlsConfig)];
    }

    /** The end of `request`: the request on the circuit, then, when a response
        came back, the sanitising of its headers and the second jitter. */
    method Exchange(circuit: Circuit, verb: string, url: string, headers: seq<Header>, body: Option<seq<byte>>,
                    tlsConfig: TlsConfig, outcome: TransportOutcome)
      returns (r: Result<NetworkResponse, NetworkError>, rest: seq<Step>)
      requires config.maxJitterMs != 0 ==> config.minJitterMs <= config.maxJitterMs
      requires Valid()
      ensures Exchanged(r, rest, shaper, verb, url, headers, body, outcome, circuit.id)
    {
      var response, sent := circuit.Request(verb, url, headers, body, tlsConfig, outcome);
      if sent.None? {
        return Failure(response.error), [];
      }
      if response.Failure? {
        return Failure(response.error), [Sent(sent.value)];
      }
      var sanitized := SanitizeResponseHeaders(response.value.headers);
      var after := ApplyJitter(shaper);
      rest := [Sent(sent.value), Sanitized(sanitized), Jitter(after)];
      r := Success(NetworkResponse(response.value.status, sanitized, response.value.body, circuit.id));
    }

    /** `request`: refuse anything but HTTPS before doing anything else; then jitter,
        a new circuit, synthetic headers, padding of the body if there is one, the TLS
        profile, the request on the circuit, sanitising of the response headers and a
        second jitter. Each `?` returns the error at once. */
    method Request(verb: string, url: string, body: Option<seq<byte>>,
                   reply: Result<string, NetworkError>, outcome: TransportOutcome)
      returns (r: Result<NetworkResponse, NetworkError>, steps: seq<Step>)
      requires Valid()
      requires config.maxJitterMs != 0 ==> config.minJitterMs <= config.maxJitterMs
      requires body.Some? ==> config.minPaddingBytes <= config.maxPaddingBytes
      modifies circuits
      ensures !StartsWith(url, HTTPS_SCHEME) ==>
        && r == Failure(ProtocolNotSupported(SchemeOf(url))) && steps == []
        && circuits.activeCircuits == old(circuits.activeCircuits)
      ensures StartsWith(url, HTTPS_SCHEME) && reply.Failure? ==>
        && r == Failure(reply.error)
        && |steps| == 2 && steps[0].Jitter? && JitterAllowed(shaper, steps[0].sleep)
        && steps[1] == CircuitRequested
        && circuits.activeCircuits == old(circuits.activeCircuits)
      ensures StartsWith(url, HTTPS_SCHEME) && reply.Success? ==>
        && circuits.activeCircuits == old(circuits.activeCircuits) + [reply.value]
        && PreparedSteps(steps, shaper, body)
        && Exchanged(r, steps[if body.Some? then 5 else 4..], shaper, verb, url,
                     ToHeaderList(steps[2].headers), body, outcome, reply.value)
    {
      if !StartsWith(url, HTTPS_SCHEME) {
        return Failure(ProtocolNotSupported(SchemeOf(url))), [];
      }
      var before := ApplyJitter(shaper);
      steps := [Jitter(before), CircuitRequested];
      var created := circuits.CreateNewCircuit(reply);
      if created.Failure? {
        return Failure(created.error), steps;
      }
      var circuit := created.value;
      var synthetic, padded, tlsConfig, tail := Prepare(body);
      var rest;
      r, rest := Exchange(circuit, verb, url, ToHeaderList(synthetic), padded, tlsConfig, outcome);
      PreparedFrom(before, tail, rest, shaper, body);
      steps := steps + tail + rest;
    }
  }
}
