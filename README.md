# forloop anonymisation core in Dafny

forloop is a privacy-focused browser. This project models four parts of it and proves properties of them:

- **Network anonymisation layer.** A request is refused unless it uses HTTPS. Otherwise it is delayed by a random jitter and sent over a fresh Tor circuit. It carries synthetic headers drawn from a Firefox anonymity set and a fixed Tor Browser TLS profile, and its response headers are stripped of tracking headers.
- **Fingerprint defences.** These are the values a page sees for fonts, screen and window size, timers, WebGL, hardware and the navigator object.
- **CLI and configuration.** The argument parser and the security self-check of the compiled-in configuration.
- **Sandbox IPC framing.** The byte format of messages between the sandboxed processes, and the sandbox presets.

One Dafny module models each source file:

| module | source |
|---|---|
| `Network` | `network/src/lib.rs` |
| `Circuits` | `network/src/circuit.rs` |
| `Headers` | `network/src/headers.rs` |
| `TrafficShaping` | `network/src/traffic_shaper.rs` |
| `TlsFingerprint` | `network/src/tls_fingerprint.rs` |
| `TorIntegration` | `network/src/tor_integration.rs` |
| `NetworkErrors` | the error enum of `network/src/lib.rs` |
| `Config` | `core/config/src/lib.rs` |
| `Sandbox` | `sandbox/src/lib.rs` |
| `Fonts`, `Screen`, `Timing`, `WebGL`, `Hardware`, `Navigator` | the same-named files under `core/fingerprint/src/` |

Small helper modules model the parts of the Rust standard library these files rely on:

| module | what it models |
|---|---|
| `Ints` | integer widths |
| `Wrappers` | `Option` and `Result` |
| `Seqs` | `Iterator::filter` |
| `Sorting` | `Vec::retain` and the stable `slice::sort_by` |
| `Text` | `to_lowercase`, `trim`, `find`/`rfind`, `split`/`join`, `{}` and `{:016x}` formatting, and `parse::<u16>` |
| `Bytes` | `to_le_bytes`/`from_le_bytes` and `String::into_bytes` (UTF-8) |
| `Lines` | building a `String` with `push_str` |

The Rust code keeps some state in place, and the model keeps that form:

- **`CircuitManager`** is a class whose `activeCircuits` sequence `CreateNewCircuit` appends to and `CloseAll` drains.
- **`TorController`** records the close requests it was sent.
- **`AnonymizedNetwork.Request`** is a method that returns the trace of effects it performed: jitter, circuit, headers, padding draw, TLS configuration, sent bytes, sanitising, jitter.
- **`strip_dangerous_headers`** is a `retain` on an array. It is proved equal to a filter.
- **`normalize_header_order`** is an in-place insertion sort on an array. It is proved equal to a functional stable sort.
- **`apply_pixel_noise`** is an indexed loop over a byte array.
- **`parse_args`**, **`build_http_request`** and **`to_torrc`** are loops, each proved equal to a reference function.

Everything else is pure and is modelled as functions and lemmas.

Four behaviours of the network core are easy to misread from its names and comments. The model follows the code in each:

- **Request pipeline.** `request` neither strips nor reorders the headers it sends, and it never closes its circuit (`network/src/lib.rs:186-223`). Both header operations are modelled on their own, and `Headers.ToHeaderListSurvivesStrip` and `Headers.ToHeaderListIsCanonical` show they would change nothing on the headers `request` sends.
- **Response sanitising.** The code drops exactly twelve names, listed at `network/src/lib.rs:233-246`.
- **ClientHello check.** `verify_client_hello` accepts any non-empty byte string (`network/src/tls_fingerprint.rs:145`). The ordering checks listed in its comment are not performed.
- **Circuit ids.** Circuit ids are built from the clock. They are distinct only when the clock readings differ (`TorIntegration.CircuitIdsDistinct`).

## Model

| member | source | states |
|---|---|---|
| `Network.DefaultNetworkConfig` | network/src/lib.rs:59-70 | A new circuit is used per request. Padding is 256..2048 bytes, jitter 0..50 ms, ports 9150/9151, timeout 60 s; both ranges are usable. |
| `Network.DefaultPortsMatchTorrc` | network/src/lib.rs:59-70 | The network configuration's Tor ports are those of the default torrc. |
| `Network.SanitizeResponseHeaders` | network/src/lib.rs:227-250 | The `retain` over the response headers; specified by `Network.SanitizeRemovesExactlyTracking` and `Network.SanitizeIsIdempotentSubsequence`. |
| `Network.SanitizeRemovesExactlyTracking` | network/src/lib.rs:227-250 | A response header survives iff it was in the input and its lower-cased name is not one of the twelve tracking names. |
| `Network.SanitizeIsIdempotentSubsequence` | network/src/lib.rs:227-250 | The survivors are a subsequence of the input, never longer, and sanitising twice is sanitising once. |
| `Network.ContentTypeKept` | network/src/lib.rs:227-250 | Content-Type is kept, whatever its value. |
| `Network.ContentLengthKept` | network/src/lib.rs:227-250 | Content-Length is kept, whatever its value. |
| `Network.SetCookieDropped` | network/src/lib.rs:235 | Set-Cookie is dropped, whatever its value. |
| `Network.EtagDropped` | network/src/lib.rs:237 | ETag is dropped, whatever its value. |
| `Network.SanitizeExample` | network/src/lib.rs:293-313 | The test's four headers sanitise to Content-Type and Content-Length, in order. |
| `Network.SchemeOf` | network/src/lib.rs:180-182 | The reported scheme is a prefix of the URL without ':', followed by ':' or the end of the URL. |
| `Network.PreparedFrom` | network/src/lib.rs:185-198 | Jitter, then circuit request, then headers/padding/TLS form the prepared prefix of the trace. |
| `Network.AnonymizedNetwork.constructor` | network/src/lib.rs:136-160 | A fresh controller on the configured ports and an empty circuit list. |
| `Network.AnonymizedNetwork.Prepare` | network/src/lib.rs:191-198 | Headers come from the anonymity set. A padding size is drawn in the configured range only when there is a body, and the body is passed on unchanged. The TLS configuration is the Tor Browser profile. |
| `Network.AnonymizedNetwork.Exchange` | network/src/lib.rs:200-222 | A bad URL fails before anything is sent. Otherwise the request bytes are sent, and a transport error is returned. A response comes back with its status and body unchanged, sanitised headers and this circuit's id, followed by a second jitter. |
| `Network.AnonymizedNetwork.Request` | network/src/lib.rs:172-224 | A non-HTTPS URL fails with ProtocolNotSupported(scheme), with an empty trace and the circuit list unchanged. A controller error is returned after exactly jitter and circuit request, with the list unchanged. On success the new id is appended and the steps follow in the source's order, the response carrying that circuit's id. |
| `Circuits.SplitPath` | network/src/circuit.rs:187-190 | The authority has no '/'. The path starts with '/' and is either the rest of the text or "/" when the text has no '/'. |
| `Circuits.ParseUrl` | network/src/circuit.rs:180-209 | It fails with "Not HTTPS" iff the URL lacks the "https://" prefix, and otherwise fails only with "Invalid port". A parsed path starts with '/' and the host has no '/'. |
| `Circuits.SplitPathOf` | network/src/circuit.rs:187-190 | Authority and path are split at the first '/'. |
| `Circuits.ParseUrlWithPort` | network/src/circuit.rs:193-202 | A host, an explicit u16 port and a path read back unchanged. The host may contain ':', since the split is at the last one. |
| `Circuits.ParseUrlDefaultPort` | network/src/circuit.rs:193-202 | Without ':' the whole authority is the host, on port 443. |
| `Circuits.ParseUrlBadPort` | network/src/circuit.rs:195-198 | A port text that is not a u16 gives InvalidUrl("Invalid port"). |
| `Circuits.ParseUrlSimpleExample` | network/src/circuit.rs:246-251 | "https://example.com/path" gives example.com, 443, /path. |
| `Circuits.ParseUrlPortExample` | network/src/circuit.rs:254-259 | ":8443" gives port 8443. |
| `Circuits.ParseUrlNoPathExample` | network/src/circuit.rs:262-267 | No path gives "/". |
| `Circuits.ParseUrlRejectsHttp` | network/src/circuit.rs:270-273 | "http://example.com" is refused. |
| `Circuits.HeaderLines` | network/src/circuit.rs:223-225 | One "name: value" line per header, in the order given. |
| `Circuits.RequestLines` | network/src/circuit.rs:218-231 | The reference lines of the request head; specified by `Circuits.RequestStartsWithRequestLine`, `Circuits.RequestHeadersInOrder` and `Circuits.ContentLengthIffBody`. |
| `Circuits.RequestBytes` | network/src/circuit.rs:233-238 | The reference bytes sent: the UTF-8 head, then the body; specified by `Circuits.RequestEndsWithBody`, and `Circuits.BuildHttpRequest` is proved equal to it. |
| `Circuits.BuildHttpRequest` | network/src/circuit.rs:212-239 | The loop's bytes are exactly the rendered request lines followed by the body. |
| `Circuits.RequestStartsWithRequestLine` | network/src/circuit.rs:218-221 | The text begins "METHOD PATH HTTP/1.1\r\nHost: HOST\r\n". |
| `Circuits.RequestHeadersInOrder` | network/src/circuit.rs:223-225 | For every k, the text begins with the first two lines and the first k header lines, so the headers appear in input order. |
| `Circuits.RequestContainsRequestLine` | network/src/circuit.rs:218-221 | The request line occurs in the text. |
| `Circuits.RequestContainsHost` | network/src/circuit.rs:218-221 | The Host field carries the parsed host. |
| `Circuits.RequestContainsHeader` | network/src/circuit.rs:223-225 | Every header occurs as its own field line. |
| `Circuits.ContentLengthIffBody` | network/src/circuit.rs:227-231 | The line after the headers is "Content-Length: n" (n the body length) iff there is a body, and otherwise it is the empty line. |
| `Circuits.RequestEndsWithBody` | network/src/circuit.rs:231-238 | The head ends with "\r\n\r\n" and is followed by the body bytes verbatim. |
| `Circuits.BuildRequestExample` | network/src/circuit.rs:276-292 | The test's request contains its request line, Host and User-Agent lines. |
| `Circuits.AwaitTransport` | network/src/circuit.rs:110-113 | An elapsed timeout is Timeout; a completed call yields its own result. |
| `Circuits.Circuit.constructor` | network/src/circuit.rs:61-65 | A circuit holds its id and controller. |
| `Circuits.Circuit.Request` | network/src/circuit.rs:76-115 | An unparseable URL returns its error and sends nothing. Otherwise exactly the built request bytes are sent and the transport outcome is returned. |
| `Circuits.CircuitManager.constructor` | network/src/circuit.rs:21-27 | No circuit is tracked at first. |
| `Circuits.CircuitManager.CreateNewCircuit` | network/src/circuit.rs:30-44 | A controller error is returned and the list is unchanged. Otherwise a fresh circuit with the new id is returned and the id is appended. |
| `Circuits.CircuitManager.CloseAll` | network/src/circuit.rs:47-59 | The list ends empty, one close is requested per tracked id in order, and the result is Ok. |
| `Headers.UserAgentsAreFirefox` | network/src/headers.rs:14-21 | Every user agent of the set names Firefox. |
| `Headers.AcceptLanguageIsEnglish` | network/src/headers.rs:24-26 | The accept-language value is an English one. |
| `Headers.Generate` | network/src/headers.rs:52-70 | The user agent is drawn from the set, with Accept the HTML value, "en-US,en;q=0.5" and "gzip, deflate, br". |
| `Headers.GenerateForImage` | network/src/headers.rs:73-77 | A generated set whose accept value is the image one. |
| `Headers.ToHeaderList` | network/src/headers.rs:80-99 | Ten pairs, User-Agent first, with the four synthesised values followed by the six fixed navigation headers. |
| `Headers.StripDangerousHeaders` | network/src/headers.rs:130-151 | The retained prefix of the vector is the input filtered by the deny-list test. |
| `Headers.StripRemovesExactlyDangerous` | network/src/headers.rs:130-151 | A header survives iff it was present and its lower-cased name is not one of the thirteen. |
| `Headers.StripIsIdempotentSubsequence` | network/src/headers.rs:147-150 | The survivors keep their relative order, and stripping twice is stripping once. |
| `Headers.Position` | network/src/headers.rs:177-178 | The first index holding the name, or the table length iff the name is absent. |
| `Headers.PositionOf` | network/src/headers.rs:177-178 | The first index holding the name is its position. |
| `Headers.Rank` | network/src/headers.rs:177-180 | The table position of the lower-cased name, and usize::MAX exactly for names outside the table. |
| `Headers.NormalizeHeaderOrder` | network/src/headers.rs:155-182 | The array after the in-place sort is the stable sort of its old contents by rank. |
| `Headers.NormalizePermutes` | network/src/headers.rs:173-181 | The output is a permutation of the input, values included. |
| `Headers.NormalizeOrdersByTable` | network/src/headers.rs:157-181 | Known names come first in table order, and unknown names follow. |
| `Headers.NormalizeIsStable` | network/src/headers.rs:173-181 | Headers of equal rank keep their input order. |
| `Headers.NormalizeIdempotent` | network/src/headers.rs:173-181 | Normalising twice is normalising once. |
| `Headers.NormalizeExample` | network/src/headers.rs:217-229 | [Accept, Host, User-Agent] becomes [Host, User-Agent, Accept]. |
| `Headers.HeaderListRank` | network/src/headers.rs:80-99 | The i-th name of to_header_list has rank i+1. |
| `Headers.ToHeaderListIsCanonical` | network/src/headers.rs:80-99 | Normalising to_header_list changes nothing. |
| `Headers.CanonicalNamesNotDangerous` | network/src/headers.rs:131-171 | No canonical name after host is on the deny-list. |
| `Headers.ToHeaderListSurvivesStrip` | network/src/headers.rs:80-99 | Stripping removes nothing from to_header_list. |
| `Headers.CookieIsDangerous` | network/src/headers.rs:132 | Cookie is removed whatever its value. |
| `Headers.RefererIsDangerous` | network/src/headers.rs:143 | Referer is removed whatever its value. |
| `Headers.UserAgentIsKept` | network/src/headers.rs:147-150 | User-Agent is kept. |
| `Headers.AcceptIsKept` | network/src/headers.rs:147-150 | Accept is kept. |
| `Headers.StripExample` | network/src/headers.rs:199-214 | Cookie and Referer go; User-Agent and Accept stay in order. |
| `TrafficShaping.FirstFitting` | network/src/traffic_shaper.rs:134-138 | The first bucket that holds n is a bucket, and it is at least n. |
| `TrafficShaping.NormalizeSize` | network/src/traffic_shaper.rs:130-142 | The loop with its early return computes the normalised size. |
| `TrafficShaping.FirstFittingIsLeast` | network/src/traffic_shaper.rs:132-138 | In ascending buckets the first fitting bucket is the least one that fits. |
| `TrafficShaping.NormalizedSize` | network/src/traffic_shaper.rs:130-142 | The reference size `normalize_size` aims at, never below the input; specified in full by `TrafficShaping.NormalizedSizeBounds`. |
| `TrafficShaping.NormalizedSizeBounds` | network/src/traffic_shaper.rs:130-142 | The result is at least n. Up to 65536 it is the least bucket that fits; above that, the least multiple of 65536 that is at least n. |
| `TrafficShaping.NormalizedSizeIdempotent` | network/src/traffic_shaper.rs:130-142 | Normalising a normalised size changes nothing. |
| `TrafficShaping.NormalizedSizeMonotone` | network/src/traffic_shaper.rs:130-142 | A larger size never gets a smaller result. |
| `TrafficShaping.NormalizedSizeSmallExamples` | network/src/traffic_shaper.rs:163-170 | 100→512, 512→512, 513→1024, 1000→1024, 1025→2048. |
| `TrafficShaping.NormalizedSizeLargeExample` | network/src/traffic_shaper.rs:163-170 | 100000→131072. |
| `TrafficShaping.NormalizeSizeWrapping` | network/src/traffic_shaper.rs:141 | The release-build arithmetic agrees with the normalised size whenever `size + 65535` fits in usize. |
| `TrafficShaping.NormalizeSizeWrapsToZero` | network/src/traffic_shaper.rs:141 | As written, usize::MAX normalises to 0. |
| `TrafficShaping.DefaultPaddingGenerator` | network/src/traffic_shaper.rs:122-125 | The default target is 512 bytes. |
| `TrafficShaping.Generate` | network/src/traffic_shaper.rs:101-110 | No padding at or above the target; below it, exactly the missing number of bytes. |
| `TrafficShaping.Pad` | network/src/traffic_shaper.rs:113-118 | The data is a prefix, and the length is max(len, target). |
| `TrafficShaping.PadRequest` | network/src/traffic_shaper.rs:34-56 | The body is returned unchanged; the drawn size lies in [min, max]. |
| `TrafficShaping.ApplyJitter` | network/src/traffic_shaper.rs:59-85 | No sleep when the maximum is 0; any sleep is positive and in [min, max]; with a positive minimum it always sleeps. |
| `TlsFingerprint.VersionCode` | network/src/tls_fingerprint.rs:116-117 | TLS 1.3 is 0x0304 and TLS 1.2 is 0x0303 (section 4.2.1 of RFC 8446). |
| `TlsFingerprint.CipherSuitesDistinct` | network/src/tls_fingerprint.rs:53-69 | No cipher suite is repeated. |
| `TlsFingerprint.ExtensionsDistinct` | network/src/tls_fingerprint.rs:72-92 | No extension type is repeated (section 4.2 of RFC 8446). |
| `TlsFingerprint.TorBrowserConfig` | network/src/tls_fingerprint.rs:50-119 | 15 suites starting 0x1301, 15 extensions, 6 groups starting x25519, 9 signature algorithms, ALPN h2 then http/1.1, and TLS 1.2..1.3. |
| `TlsFingerprint.TorBrowserConfigOffersTls13` | network/src/tls_fingerprint.rs:50-119 | The profile meets the RFC 8446 ClientHello rules it claims: no repeated suite, extension, group or signature algorithm; supported_versions, supported_groups, key_share and signature_algorithms offered; pre_shared_key last if present; max TLS 1.3 and min not above it. |
| `TlsFingerprint.Tls13SuitesFirst` | network/src/tls_fingerprint.rs:53-57 | The three TLS 1.3 suites come first. |
| `TlsFingerprint.NewNormalizer` | network/src/tls_fingerprint.rs:43-47 | The normalizer holds a profile with more than 10 suites, starting 0x1301. |
| `TlsFingerprint.CreateConfig` | network/src/tls_fingerprint.rs:122-124 | It always succeeds and returns the normalizer's one profile. |
| `TlsFingerprint.CreateConfigIsTorBrowser` | network/src/tls_fingerprint.rs:43-47 | Every call returns the Tor Browser profile. |
| `TlsFingerprint.VerifyClientHello` | network/src/tls_fingerprint.rs:135-146 | True iff the bytes are non-empty. |
| `TlsFingerprint.DefaultHttp2Fingerprint` | network/src/tls_fingerprint.rs:179-197 | SETTINGS ids 1..6 in order with ENABLE_PUSH 0, window update 12517377, and priority weight 41, non-exclusive, on stream 0. |
| `TlsFingerprint.DefaultHttp2IsLegal` | network/src/tls_fingerprint.rs:179-197 | Every setting is legal for its id (section 6.5.2 of RFC 9113), ids ascend, and the window increment is in range. |
| `TorIntegration.GenerateCircuitId` | network/src/tor_integration.rs:114-124 | "circuit_" followed by at least 16 hexadecimal digits. |
| `TorIntegration.CircuitIdsDistinct` | network/src/tor_integration.rs:123 | Different clock readings give different ids. |
| `TorIntegration.TorController.constructor` | network/src/tor_integration.rs:23-28 | The controller holds the two ports and no close requests. |
| `TorIntegration.TorController.SocksAddr` | network/src/tor_integration.rs:77-79 | "127.0.0.1:" followed by text that parses back to the SOCKS port. |
| `TorIntegration.TorController.NewCircuit` | network/src/tor_integration.rs:82-90 | It succeeds with the id built from the clock reading. |
| `TorIntegration.TorController.CloseCircuit` | network/src/tor_integration.rs:106-110 | It records the request and succeeds. |
| `TorIntegration.DefaultTorConfig` | network/src/tor_integration.rs:146-156 | Ports 9150/9151, no bridges, disk writes off, strict exit, data under /dev/shm/. |
| `TorIntegration.TorrcLines` | network/src/tor_integration.rs:161-195 | The reference torrc lines; specified by `TorIntegration.TorrcStartsWithPorts`, `TorIntegration.TorrcAlwaysHardened`, `TorIntegration.TorrcStrictExitIff` and `TorIntegration.TorrcBridgesIff`. |
| `TorIntegration.ToTorrc` | network/src/tor_integration.rs:161-195 | The push_str loop yields the rendered torrc lines. |
| `TorIntegration.TorrcStartsWithPorts` | network/src/tor_integration.rs:164-166 | The first three lines are DataDirectory, then SocksPort and ControlPort, whose values parse back to the ports. |
| `TorIntegration.TorrcAlwaysHardened` | network/src/tor_integration.rs:169-174 | CookieAuthentication, AvoidDiskWrites, DisableDebuggerAttachment and SafeLogging are always present, and the text ends "ClientOnly 1\n". |
| `TorIntegration.TorrcStrictExitIff` | network/src/tor_integration.rs:177-180 | "ExitRelay 0" and "StrictNodes 1" appear iff strict_exit is set. |
| `TorIntegration.TorrcBridgesIff` | network/src/tor_integration.rs:183-188 | "UseBridges 1" appears iff use_bridges is set, followed then by one Bridge line per entry in order; otherwise there are no Bridge lines. |
| `TorIntegration.DefaultTorrc` | network/src/tor_integration.rs:213-221 | The default renders SocksPort 9150, AvoidDiskWrites 1 and ExitRelay 0. |
| `Config.Lookup` | core/config/src/lib.rs:50-74 | A match is an arm of the table. |
| `Config.Apply` | core/config/src/lib.rs:51-81 | One arm of the `match` for any argument but `--bridge`; specified by `Config.ApplySetsItsOwnFlag`, `Config.ApplyUnknown` and `Config.ApplyUrl`. |
| `Config.Scan` | core/config/src/lib.rs:48-84 | The reference scan of the remaining arguments; specified by `Config.ScanFlag`, `Config.ScanBridges` and `Config.ScanUrl`. |
| `Config.Parsed` | core/config/src/lib.rs:36-87 | The reference result of `parse_args`: the scan after the program name; specified by `Config.ProgramNameIgnored` and the three scan lemmas, and `Config.ParseArgs` is proved equal to it. |
| `Config.ParseArgs` | core/config/src/lib.rs:36-87 | The index loop computes the parse of the arguments. |
| `Config.ProgramNameIgnored` | core/config/src/lib.rs:48 | args[0] never affects the result. |
| `Config.OptionNamesUnique` | core/config/src/lib.rs:50-74 | No spelling belongs to two options. |
| `Config.RecognisedIsSpelling` | core/config/src/lib.rs:50-74 | An argument is recognised as an option iff it is one of that option's spellings. |
| `Config.ApplySetsItsOwnFlag` | core/config/src/lib.rs:51-74 | A flag is set afterwards iff it was set before or the argument spells it; bridges are untouched. |
| `Config.ApplyUnknown` | core/config/src/lib.rs:75-81 | A non-option becomes the url; an unknown option changes nothing. |
| `Config.ApplyUrl` | core/config/src/lib.rs:75-78 | Only non-options change the url. |
| `Config.RecognisedIsOption` | core/config/src/lib.rs:50-74 | Every spelling starts with '-'. |
| `Config.ScanFlag` | core/config/src/lib.rs:48-84 | After the loop a flag is set iff it was set before or a non-bridge-line argument spells it. |
| `Config.ScanBridges` | core/config/src/lib.rs:60-65 | The bridge lines are appended in order; a trailing --bridge adds nothing. |
| `Config.LastUrl` | core/config/src/lib.rs:75-78 | The url is the one before, or one of the url arguments. |
| `Config.LastUrlCons` | core/config/src/lib.rs:75-78 | Reading the url from the end agrees with the front-to-back loop. |
| `Config.ScanUrl` | core/config/src/lib.rs:75-78 | The url after the loop is the last non-option argument, or unchanged when there is none. |
| `Config.UrlArgument` | core/config/src/lib.rs:75-78 | A non-option argument is taken as the url. |
| `Config.CliParsingExample` | core/config/src/lib.rs:361-371 | `--new-loop https://example.onion` sets new_loop and the url. |
| `Config.CliBridgesExample` | core/config/src/lib.rs:374-385 | `--use-bridges --bridge X` sets use_bridges and bridges [X]. |
| `Config.BridgeLineIsNotAnOption` | core/config/src/lib.rs:60-65 | The argument after --bridge is a bridge line even when it spells an option. |
| `Config.VerifySecure` | core/config/src/lib.rs:262-287 | A failure is one of the twelve panic messages. |
| `Config.FirstFailing` | core/config/src/lib.rs:262-287 | The checks before the index pass, and the one at the index fails. |
| `Config.VerifySecureIsFirstFailure` | core/config/src/lib.rs:262-287 | It passes iff all eleven *_enabled flags are false and new_circuit_per_request is true; otherwise it reports the first violated check's message. |
| `Config.CookiesRefused` | core/config/src/lib.rs:407-411 | With cookies on, it fails with "Cookies must be disabled". |
| `Config.DefaultConfig` | core/config/src/lib.rs:195-227 | The default configuration is secure. |
| `Config.GetConfig` | core/config/src/lib.rs:233-258 | The singleton is secure. |
| `Config.DefaultIsGet` | core/config/src/lib.rs:195-258 | default() and get() agree field by field, and both pass verify_secure. |
| `Sandbox.UiProcess` | sandbox/src/lib.rs:68-83 | The UI preset; specified by `Sandbox.OnlyNetworkProcessHasNetwork`, `Sandbox.IsolatedPresets` and `Sandbox.SeccompPresets`. |
| `Sandbox.BrokerProcess` | sandbox/src/lib.rs:86-98 | The broker preset; specified by the same three lemmas. |
| `Sandbox.NetworkProcess` | sandbox/src/lib.rs:101-113 | The network preset; specified by the same three lemmas. |
| `Sandbox.ContentProcess` | sandbox/src/lib.rs:116-128 | The content preset; specified by the same three lemmas. |
| `Sandbox.Preset` | sandbox/src/lib.rs:68-128 | The preset of each process type is for that process type. |
| `Sandbox.OnlyNetworkProcessHasNetwork` | sandbox/src/lib.rs:68-128 | Each preset is for its own process type, and only the network process may use the network. |
| `Sandbox.IsolatedPresets` | sandbox/src/lib.rs:68-128 | The broker and content processes are fully isolated: no file access, no allowed paths, and user, net and pid namespaces. Only the UI may read files, and no process may write. |
| `Sandbox.SeccompPresets` | sandbox/src/lib.rs:68-128 | Only the UI process has no seccomp filter. |
| `Sandbox.Code` | sandbox/src/lib.rs:385-400 | Type codes are below 7. |
| `Sandbox.FromCode` | sandbox/src/lib.rs:487-496 | An unknown code reads as Error. |
| `Sandbox.CodeRoundTrip` | sandbox/src/lib.rs:385-400 | Every type reads back from its code. |
| `Sandbox.CodeInjective` | sandbox/src/lib.rs:385-400 | No two types share a code. |
| `Sandbox.Frame` | sandbox/src/lib.rs:432-436 | A frame is 16 bytes plus the payload length. |
| `Sandbox.Send` | sandbox/src/lib.rs:430-452 | The four appends build the frame. |
| `Sandbox.Recv` | sandbox/src/lib.rs:455-500 | It fails iff fewer than 16 bytes arrived, with "Message too short", and the payload has the declared length. |
| `Sandbox.RecvChecked` | sandbox/src/lib.rs:455-500 | It succeeds iff the header and the whole declared payload arrived, and the payload is the received bytes after the header. |
| `Sandbox.RecvAgreesWhenComplete` | sandbox/src/lib.rs:484 | On complete frames both decodings agree. |
| `Sandbox.FrameFields` | sandbox/src/lib.rs:432-436 | The bytes are the little-endian type code (4 bytes), request id (8 bytes) and payload length (4 bytes), then the payload. |
| `Sandbox.RecvFrameRoundTrip` | sandbox/src/lib.rs:430-500 | A sent frame decodes to the same message, both as written and checked. |
| `Sandbox.RecvExample` | sandbox/src/lib.rs:530-545 | The test's message round-trips. |
| `Sandbox.RecvInventsPayload` | sandbox/src/lib.rs:484 | As written, a bare header declaring 4 bytes decodes to 4 zero bytes; the checked decoding refuses it. |
| `Fonts.NewFontDefense` | core/fingerprint/src/fonts.rs:36-40 | The list is ALLOWED_FONTS, every entry non-empty and trimmed. |
| `Fonts.IsFontAllowed` | core/fingerprint/src/fonts.rs:43-48 | `is_font_allowed`; specified by `Fonts.AllowedDependsOnNormalForm`, `Fonts.ListedFontsAllowed` and `Fonts.RefusedByShape`. |
| `Fonts.AllowedDependsOnNormalForm` | core/fingerprint/src/fonts.rs:43-48 | A name is allowed iff its trimmed, lower-cased form is. |
| `Fonts.ListedFontsAllowed` | core/fingerprint/src/fonts.rs:43-48 | Every listed family is allowed as written, lower-cased, or with a leading space. |
| `Fonts.FilterFonts` | core/fingerprint/src/fonts.rs:56-62 | The result is no longer than the input, and every element is an allowed input. |
| `Fonts.FilterFontsKeepsExactlyAllowed` | core/fingerprint/src/fonts.rs:56-62 | A name survives iff it is an allowed input. The survivors keep their order, and filtering is idempotent. |
| `Fonts.StripQuotes` | core/fingerprint/src/fonts.rs:93 | No quote is left at either end. |
| `Fonts.StripQuotesQuoted` | core/fingerprint/src/fonts.rs:93 | A once-quoted name unquotes to itself. |
| `Fonts.Entries` | core/fingerprint/src/fonts.rs:88 | One entry per comma-separated piece, never none. |
| `Fonts.EntriesAreClean` | core/fingerprint/src/fonts.rs:88 | Every entry is trimmed and comma-free. |
| `Fonts.EntriesOfJoin` | core/fingerprint/src/fonts.rs:88-102 | Splitting a ", "-join of clean entries gives them back. |
| `Fonts.SanitizeFontFamily` | core/fingerprint/src/fonts.rs:86-104 | `sanitize_font_family`; specified by `Fonts.SanitizedReadsBack`, `Fonts.KeptExactlyAllowed`, `Fonts.SanitizeNeverEmpty` and `Fonts.SanitizeIdempotent`. |
| `Fonts.SanitizedReadsBack` | core/fingerprint/src/fonts.rs:86-104 | When something is kept, the output reads back as exactly the kept entries. |
| `Fonts.KeptExactlyAllowed` | core/fingerprint/src/fonts.rs:90-96 | An entry is kept iff it is an entry whose unquoted name is allowed. |
| `Fonts.SanitizeNeverEmpty` | core/fingerprint/src/fonts.rs:98-103 | The sanitised value is never empty. |
| `Fonts.SanitizeIdempotent` | core/fingerprint/src/fonts.rs:86-104 | Sanitising twice is sanitising once when the fallback is allowed. |
| `Fonts.SanitizeDropsMiddle` | core/fingerprint/src/fonts.rs:86-104 | Of three clean entries with the middle one refused, the other two are kept, joined. |
| `Fonts.SanitizeDropsBoth` | core/fingerprint/src/fonts.rs:98-100 | With nothing allowed the result is "sans-serif". |
| `Fonts.RefusedByShape` | core/fingerprint/src/fonts.rs:8-25 | A trimmed name whose length and initial match no listed name is refused. |
| `Fonts.ArialAllowed` | core/fingerprint/src/fonts.rs:153-161 | "Arial" is allowed. |
| `Fonts.LowerArialAllowed` | core/fingerprint/src/fonts.rs:153-161 | "arial" is allowed. |
| `Fonts.PaddedArialAllowed` | core/fingerprint/src/fonts.rs:153-161 | " Arial " is allowed. |
| `Fonts.ComicSansRefused` | core/fingerprint/src/fonts.rs:153-161 | "Comic Sans MS" is refused. |
| `Fonts.FilterFontsExample` | core/fingerprint/src/fonts.rs:164-174 | [Arial, Comic Sans MS, Verdana] filters to [Arial, Verdana]. |
| `Fonts.SanitizeExample` | core/fingerprint/src/fonts.rs:177-189 | "Arial, 'Comic Sans MS', sans-serif" becomes "Arial, sans-serif". |
| `Fonts.SanitizeFallbackExample` | core/fingerprint/src/fonts.rs:177-189 | Two unknown families give "sans-serif". |
| `Screen.Random` | core/fingerprint/src/screen.rs:63-66 | The result is one of the five buckets. |
| `Screen.ArgMin` | core/fingerprint/src/screen.rs:70-77 | An index whose distance is minimal and strictly below that of every earlier index. |
| `Screen.Nearest` | core/fingerprint/src/screen.rs:69-79 | `nearest` returns a bucket of the table; its minimality is `Screen.NearestIsFirstClosest`. |
| `Screen.NearestIsFirstClosest` | core/fingerprint/src/screen.rs:69-79 | nearest is a bucket with minimal L1 distance, and every bucket listed before it is farther. |
| `Screen.ArgMinUnique` | core/fingerprint/src/screen.rs:70-77 | The first minimal index is the one min_by_key returns. |
| `Screen.NearestFirst` | core/fingerprint/src/screen.rs:69-79 | When the first bucket is no farther than any other, it is chosen. |
| `Screen.NearestExactExample` | core/fingerprint/src/screen.rs:243-250 | 1920x1080 maps to its own bucket. |
| `Screen.NearestCloseExample` | core/fingerprint/src/screen.rs:243-250 | 1900x1000 maps to width 1920. |
| `Screen.BucketsTallEnough` | core/fingerprint/src/screen.rs:24-60 | No bucket underflows the height getters. |
| `Screen.ScreenWidth` | core/fingerprint/src/screen.rs:104-106 | `screen_width`: the bucket width; specified by `Screen.GetScreenProperties` (width). |
| `Screen.ScreenHeight` | core/fingerprint/src/screen.rs:109-111 | `screen_height`: the bucket height; specified by `Screen.GetScreenProperties` (height). |
| `Screen.AvailWidth` | core/fingerprint/src/screen.rs:114-116 | `avail_width`: the full bucket width; specified by `Screen.GetScreenProperties` (availWidth = width). |
| `Screen.ColorDepth` | core/fingerprint/src/screen.rs:124-126 | `color_depth`: the bucket depth; specified by `Screen.GetScreenProperties` (colorDepth). |
| `Screen.PixelDepth` | core/fingerprint/src/screen.rs:129-131 | `pixel_depth`: equal to the color depth; specified by `Screen.GetScreenProperties` (pixelDepth = colorDepth). |
| `Screen.InnerWidth` | core/fingerprint/src/screen.rs:139-142 | `inner_width`: the bucket width; specified by `Screen.GetWindowProperties` (innerWidth = screen width). |
| `Screen.OuterWidth` | core/fingerprint/src/screen.rs:151-153 | `outer_width`: the bucket width; specified by `Screen.GetWindowProperties` (outerWidth = screen width). |
| `Screen.OuterHeight` | core/fingerprint/src/screen.rs:156-158 | `outer_height`: the screen height; specified by `Screen.GetWindowProperties` (outerHeight = screen height). |
| `Screen.ScreenX` | core/fingerprint/src/screen.rs:161-163 | `screen_x`: 0; specified by `Screen.GetWindowProperties` (screenX = 0). |
| `Screen.ScreenY` | core/fingerprint/src/screen.rs:166-168 | `screen_y`: 0; specified by `Screen.GetWindowProperties` (screenY = 0). |
| `Screen.AvailHeight` | core/fingerprint/src/screen.rs:119-121 | It is 40 below, and strictly below, the screen height. |
| `Screen.InnerHeight` | core/fingerprint/src/screen.rs:145-148 | It is 100 below, and strictly below, the outer height. |
| `Screen.GetScreenProperties` | core/fingerprint/src/screen.rs:171-182 | width = availWidth = the bucket width, height = the bucket height, availHeight = `avail_height` (40 below it), pixelDepth = colorDepth, orientation "landscape-primary" at angle 0. |
| `Screen.GetWindowProperties` | core/fingerprint/src/screen.rs:185-195 | Inner and outer widths are the screen width, the outer height is the screen height, innerHeight = `inner_height` (100 below it), the pixel ratio is the bucket's, and the window is at (0, 0). |
| `Screen.AvailHeightWrapping` | core/fingerprint/src/screen.rs:119-121 | For any bucket, as a release build computes it: 40 below the height when the height is at least 40, and above the screen height otherwise, because the `u32` subtraction wraps. |
| `Screen.InnerHeightWrapping` | core/fingerprint/src/screen.rs:145-148 | For any bucket, as a release build computes it: 100 below the height when the height is at least 100, and above the outer height otherwise. |
| `Screen.ShortBucketWraps` | core/fingerprint/src/screen.rs:91-93 | A bucket 30 pixels tall, which `ScreenDefense::new` accepts, gives availHeight 4294967286 and innerHeight 4294967226. |
| `Screen.FullHdDefenseExample` | core/fingerprint/src/screen.rs:262-265 | Full HD reports 1920, 1080, depth 24 and availHeight below height. |
| `Timing.New` | core/fingerprint/src/timing.rs:25-33 | Both precisions are 100 and the jitter is below 10. |
| `Timing.Jitter` | core/fingerprint/src/timing.rs:57-67 | The jitter is below max_jitter_ms. |
| `Timing.JitterDeterministic` | core/fingerprint/src/timing.rs:57-67 | The jitter depends only on seed, bound and input. |
| `Timing.RoundDown` | core/fingerprint/src/timing.rs:38 | The result is a multiple of the precision, at most the input, and within one precision of it. |
| `Timing.SaturatingAdd` | core/fingerprint/src/timing.rs:42 | The sum, capped at u64::MAX. |
| `Timing.FuzzDateNow` | core/fingerprint/src/timing.rs:36-43 | The result lies in [rounded, rounded + max_jitter) and is rounded + jitter unless it saturates. |
| `Timing.FuzzDateNowExample` | core/fingerprint/src/timing.rs:139-149 | 1703412345678 fuzzes into [1703412345600, 1703412345610). |
| `Timing.MinimumTimerDelay` | core/fingerprint/src/timing.rs:78-80 | `minimum_timer_delay`: the 4 ms floor; specified by `Timing.FuzzTimerDelay`, whose result is never below it. |
| `Timing.FuzzTimerDelayWrapping` | core/fingerprint/src/timing.rs:83-90 | `fuzz_timer_delay` as written, with the `u64` sum wrapping as in a release build; `Timing.FuzzTimerDelayWrapsToZero` shows the wrap and `Timing.FuzzTimerDelayAgrees` that it matches the corrected delay whenever the sum fits. |
| `Timing.FuzzTimerDelayWrapsToZero` | core/fingerprint/src/timing.rs:89 | As written, u64::MAX with a jitter of 1 wraps to 0. |
| `Timing.FuzzTimerDelay` | core/fingerprint/src/timing.rs:83-90 | The result is at least the request and the 4 ms minimum, and below max(request, 4) + max_jitter. |
| `Timing.FuzzTimerDelayAgrees` | core/fingerprint/src/timing.rs:83-90 | Without overflow the corrected delay is the written one. |
| `WebGL.New` | core/fingerprint/src/webgl.rs:147-154 | The profile is one of the three, and the seed is kept. |
| `WebGL.NewBySeedClass` | core/fingerprint/src/webgl.rs:147-154 | Seeds equal mod 3 give the same profile. |
| `WebGL.Renderer` | core/fingerprint/src/webgl.rs:157-159 | `renderer`: the masked renderer; specified by `WebGL.MaskedStringsShared` and `WebGL.GetterAgreesWithParameter`. |
| `WebGL.Vendor` | core/fingerprint/src/webgl.rs:162-164 | `vendor`: the masked vendor; specified by `WebGL.MaskedStringsShared` and `WebGL.GetterAgreesWithParameter`. |
| `WebGL.UnmaskedRenderer` | core/fingerprint/src/webgl.rs:167-169 | `unmasked_renderer`: the profile's own renderer; specified by `WebGL.UnmaskedStringsIdentifyProfile`. |
| `WebGL.UnmaskedVendor` | core/fingerprint/src/webgl.rs:172-174 | `unmasked_vendor`: the profile's own vendor; specified by `WebGL.UnmaskedStringsIdentifyProfile`. |
| `WebGL.UnmaskedStringsIdentifyProfile` | core/fingerprint/src/webgl.rs:147-175 | Seeds in different classes modulo 3 report different unmasked renderers and vendors, so the unmasked strings reveal the profile. |
| `WebGL.MaskedStringsShared` | core/fingerprint/src/webgl.rs:157-164 | Every seed reports "WebKit WebGL" and "WebKit". |
| `WebGL.ProfileSelectionExample` | core/fingerprint/src/webgl.rs:256-263 | Seeds 0 and 3 report the same renderer. |
| `WebGL.GetParameter` | core/fingerprint/src/webgl.rs:177-201 | Null iff the name is not one of the eight, and the six numeric names map to the profile's fields. |
| `WebGL.GetterAgreesWithParameter` | core/fingerprint/src/webgl.rs:157-201 | renderer() and vendor() equal the strings reported for 0x1F01 and 0x1F00. |
| `WebGL.MaxTextureSizeLarge` | core/fingerprint/src/webgl.rs:266-274 | MAX_TEXTURE_SIZE is an Int of at least 8192 for every seed. |
| `WebGL.SupportedExtensions` | core/fingerprint/src/webgl.rs:204-214 | Six extensions. |
| `WebGL.SupportedExtensionsInProfile` | core/fingerprint/src/webgl.rs:204-214 | Every reported extension is in the selected profile's list. |
| `WebGL.Noise` | core/fingerprint/src/webgl.rs:227 | The noise is in -1..2. |
| `WebGL.Clamp` | core/fingerprint/src/webgl.rs:228 | Values in range are kept, and values out of range go to 0 or 255. |
| `WebGL.Noised` | core/fingerprint/src/webgl.rs:217-231 | The length is unchanged, and each byte is noised by its own index and value. |
| `WebGL.ApplyPixelNoise` | core/fingerprint/src/webgl.rs:217-231 | After the loop the array holds the noised old contents. |
| `WebGL.NoisedStaysClose` | core/fingerprint/src/webgl.rs:217-231 | Each byte moves by at most -1..+2, exactly by the noise away from the ends. |
| `WebGL.NoisedPointwise` | core/fingerprint/src/webgl.rs:277-287 | Equal input bytes at equal indices give equal outputs. |
| `WebGL.NoisedGrayExample` | core/fingerprint/src/webgl.rs:277-287 | 64 bytes of 128 stay within 127..130. |
| `Hardware.ProfilesCommon` | core/fingerprint/src/hardware.rs:21-46 | Every profile has no touch points, 2, 4 or 8 cores, and 4, 8 or 16 GB. |
| `Hardware.Random` | core/fingerprint/src/hardware.rs:49-52 | The result is one of the four profiles. |
| `Hardware.DefaultProfile` | core/fingerprint/src/hardware.rs:55-57 | 4 cores and 8 GB. |
| `Hardware.DefaultDefense` | core/fingerprint/src/hardware.rs:74-78 | The default defense uses the default profile. |
| `Hardware.HardwareConcurrency` | core/fingerprint/src/hardware.rs:81-83 | `hardware_concurrency`: the profile's cores; specified by `Hardware.GetProperties` and `Hardware.PropertiesCommon`. |
| `Hardware.DeviceMemory` | core/fingerprint/src/hardware.rs:86-88 | `device_memory`: the profile's memory; specified by `Hardware.GetProperties` and `Hardware.PropertiesCommon`. |
| `Hardware.MaxTouchPoints` | core/fingerprint/src/hardware.rs:91-93 | `max_touch_points`: the profile's touch points, 0 in every row; specified by `Hardware.GetProperties` and `Hardware.PropertiesCommon`. |
| `Hardware.GetProperties` | core/fingerprint/src/hardware.rs:96-115 | The three numbers are copied and all twelve device APIs are off. |
| `Hardware.PropertiesCommon` | core/fingerprint/src/hardware.rs:96-115 | A table profile reports the numbers of some row of the table, so a common machine. |
| `Hardware.DefaultDefenseExample` | core/fingerprint/src/hardware.rs:212-237 | The default has 4 cores, and Bluetooth, battery and sensors are off. |
| `Navigator.New` | core/fingerprint/src/navigator.rs:21-29 | Win32, offset 0, en-US, the Firefox 115 user agent. |
| `Navigator.WithIdentity` | core/fingerprint/src/navigator.rs:32-43 | The user agent, platform and offset are kept; the language is always en-US. |
| `Navigator.NewIsAnIdentity` | core/fingerprint/src/navigator.rs:21-43 | new is with_identity of the default user agent on Win32 at offset 0. |
| `Navigator.TimezoneOffset` | core/fingerprint/src/navigator.rs:82-84 | `timezone_offset`: the identity's offset; specified by `Navigator.WithIdentity`. |
| `Navigator.Locale` | core/fingerprint/src/navigator.rs:87-89 | `locale`: always "en-US"; specified by `Navigator.WithIdentity`. |
| `Navigator.GetOscpu` | core/fingerprint/src/navigator.rs:72-79 | One of three strings: the Mac one iff MacIntel, the Linux one iff "Linux x86_64", and Windows otherwise. |
| `Navigator.GetProperties` | core/fingerprint/src/navigator.rs:46-69 | The identity fields and the platform's oscpu are copied. Cookies, webdriver, DNT, plugins and MIME types are off, with languages [en-US, en]. |
| `Navigator.PropertiesDependOnIdentityOnly` | core/fingerprint/src/navigator.rs:46-69 | Two identities on one platform differ only in the user agent. |
| `Navigator.DefaultPropertiesExample` | core/fingerprint/src/navigator.rs:212-220 | The default user agent names Firefox; cookies, webdriver and plugins are off. |
| `Navigator.ShouldFail` | core/fingerprint/src/navigator.rs:165-168 | `GeolocationDefense::should_fail`: geolocation always fails; specified by `Navigator.AccessRefused`. |
| `Navigator.GetPermissionState` | core/fingerprint/src/navigator.rs:193-195 | `get_permission_state`: "denied" for every name; specified by `Navigator.AccessRefused`. |
| `Navigator.GetMediaDevices` | core/fingerprint/src/navigator.rs:198-200 | `get_media_devices`: no devices; specified by `Navigator.AccessRefused`. |
| `Navigator.CredentialsAvailable` | core/fingerprint/src/navigator.rs:203-205 | `credentials_available`: false; specified by `Navigator.AccessRefused`. |
| `Navigator.AccessRefused` | core/fingerprint/src/navigator.rs:165-205 | Every permission is "denied", geolocation fails, and there are no credentials and no media devices. |
| `Seqs.Filter` | network/src/lib.rs:228-249 | Kept elements come from the input and satisfy the test, and the result is never longer. |
| `Seqs.FilterIsSubsequence` | network/src/lib.rs:228-249 | The filter is a subsequence of the input. |
| `Seqs.FilterMembership` | network/src/lib.rs:228-249 | x is in the filter iff x is in the input and kept. |
| `Seqs.FilterIdempotent` | network/src/lib.rs:228-249 | Filtering twice is filtering once. |
| `Sorting.Retain` | network/src/headers.rs:147-150 | The retained prefix is the filter of the old array. |
| `Sorting.InsertionSort` | network/src/headers.rs:173-181 | The sorted array equals the functional stable sort of its old contents. |
| `Sorting.InsertInto` | network/src/headers.rs:173-181 | One insertion step: the first i+1 cells become the functional insertion of the old cell i into the old sorted prefix, and the cells after it are unchanged. |
| `Sorting.SortByKeyPermutes` | network/src/headers.rs:173-181 | The sort is a permutation of its input. |
| `Sorting.SortByKeySorted` | network/src/headers.rs:173-181 | The output is ordered by key. |
| `Sorting.SortByKeyStable` | network/src/headers.rs:173-181 | Elements of each key keep their order. |
| `Sorting.SortByKeyIdempotent` | network/src/headers.rs:173-181 | Sorting twice is sorting once. |
| `Text.Lower` | network/src/headers.rs:148 | Same length, and each character is lower-cased. |
| `Text.TrimIsTrimmed` | core/fingerprint/src/fonts.rs:44 | The trim has no white space at either end and uses only input characters. |
| `Text.FindFirst` | network/src/circuit.rs:187 | The first index of c, or none iff c is absent. |
| `Text.FindLast` | network/src/circuit.rs:193 | The last index of c, or none iff c is absent. |
| `Text.Split` | core/fingerprint/src/fonts.rs:88 | At least one piece, and no piece contains the separator. |
| `Text.SplitJoined` | core/fingerprint/src/fonts.rs:88-102 | Splitting a ", "-join at commas gives the parts, each after the first led by a space. |
| `Text.DecimalParsesBack` | network/src/circuit.rs:195-198 | parse::<u16> inverts decimal formatting on 0..65535. |
| `Text.ParseU16` | network/src/circuit.rs:195-198 | The parsed value is at most 65535. |
| `Text.PaddedHexValue` | network/src/tor_integration.rs:123 | The zero-padded hex text reads back as the number. |
| `Bytes.LEValue` | sandbox/src/lib.rs:433-435 | to_le_bytes of k bytes holds the number truncated to k bytes, whatever its size. |
| `Bytes.LERoundTrip` | sandbox/src/lib.rs:433-435 | from_le_bytes inverts to_le_bytes on values that fit. |
| `Bytes.Utf8Append` | network/src/circuit.rs:233 | UTF-8 encoding distributes over concatenation. |
| `Bytes.Utf8Ascii` | network/src/circuit.rs:233 | ASCII text encodes one byte per character. |
| `Lines.RenderContainsLine` | network/src/tor_integration.rs:161-195 | Every pushed line occurs in the text. |
| `Lines.RenderPrefix` | network/src/tor_integration.rs:161-195 | The text begins with the rendering of any prefix of its lines. |

## Left out

- Network and transport I/O is not modelled: SOCKS, TLS, the placeholder `execute_request` and the Tor daemon's startup and bootstrap. The controller's reply to a circuit request and the transport outcome (a response, an error or an elapsed timeout) are parameters.
- `TorController::new`, `start_embedded_tor`, `wait_for_bootstrap` and `get_current_circuit_info` are daemon plumbing and are left out.
- Randomness is modelled as a free choice within the stated range, and no distribution is modelled. This covers the user-agent pick, the padding draw, the jitter delay, the padding bytes and random screen or hardware profiles.
- The ChaCha20 identity generation is left out.
- The clock is a parameter. This covers the reading that makes a circuit id and the actual time `fuzz_date_now` receives.
- `DefaultHasher` is a function parameter. The source test's assertion that a different seed gives a different jitter depends on the hash's actual values and is not provable of an arbitrary hash.
- The tokio and std mutexes and the `connected` flag are not modelled. Calls are modelled one at a time.
- Syscalls are left out: namespaces, seccomp, `socketpair`, and the socket `send`/`recv` themselves. Only the byte layout of IPC frames and their decoding is modelled.
- `secure_delete_dir`, `kill_all_state`, `print_help`, `print_version`, `get_temp_download_dir` (core/config/src/lib.rs:291) and `ForloopCli::parse` (core/config/src/lib.rs:31) are left out. They touch the file system or the process, depend on the target OS and its temporary directory, or read the real argument list; `parse` only hands `std::env::args` to `parse_args`, which is modelled.
- Floating point is left out:
  - `get_font_metrics`, `fuzz_performance_now` and `clamp_raf_timestamp`;
  - the WebGL `Float` parameter variant;
  - `FakePosition` and `get_fake_position`;
  - `NetworkInformation` and its `downlink`.
  - The window's `f64` device pixel ratio is modelled by the bucket's integer ratio.
- Constants that no modelled operation reads are left out: the API-name lists `timing_apis_to_fuzz`, `timing_apis_to_block` and `blocked_hardware_apis`, the flags `block_resource_timing` and `fuzz_navigation_timing` (all in `timing.rs` and `hardware.rs`), the JA3 hash `expected_ja3_hash` of `tls_fingerprint.rs`, and the font list `blocked_font_apis`.
- `to_lowercase` and `trim` are Unicode-aware in Rust. The model lower-cases ASCII letters and trims ASCII white space.
- `request` passes `&SyntheticHeaders` where `Circuit::request` takes a slice of pairs. The model sends `to_header_list` of the synthetic headers, the only conversion the code has.
- The `padding` module that `network/src/lib.rs` declares is not part of this model. Padding uses the `PaddingGenerator` of `traffic_shaper.rs`.
- The `Instant` fields recording when a circuit or a timing defense was created are left out, because nothing reads them.
- Screen.Nearest: requires that the `i32` key of `min_by_key` neither wraps in the casts nor overflows in the sum. Those cases are not modelled.
- Screen.AvailHeight: requires a height of at least 40. Below that, the `u32` subtraction panics in a debug build and wraps in a release build. `ScreenDefense::new` accepts any caller-built bucket, so the bound restricts callers, not only the table. The release behaviour for every height is `Screen.AvailHeightWrapping`.
- Screen.InnerHeight: requires a height of at least 100, for the same reason. The release behaviour for every height is `Screen.InnerHeightWrapping`.
- Screen.GetScreenProperties: requires a height of at least 40, because it reads `avail_height`.
- Screen.GetWindowProperties: requires a height of at least 100, because it reads `inner_height`. Every bucket of the table meets both bounds (`Screen.BucketsTallEnough`). A caller-built bucket need not meet them (`Screen.ShortBucketWraps`).
- Sandbox.Recv: requires a declared payload length of at most 65520 bytes. A larger one makes the slice of the 65536-byte buffer panic.
- TrafficShaping.PadRequest: requires min_padding ≤ max_padding. Otherwise `gen_range` panics.
- TrafficShaping.ApplyJitter: requires min_jitter_ms ≤ max_jitter_ms when the maximum is not 0, for the same reason.
- WebGL.ApplyPixelNoise: the index fed to the hash is an unbounded natural rather than a `usize`.

## Findings

| source | as written | input that shows it | evidently intended | confidence | as-written member | corrected member |
|---|---|---|---|---|---|---|
| network/src/traffic_shaper.rs:141 | `size + 65535` in `usize`, which wraps in a release build | `normalize_size(usize::MAX)` gives 0 | the size rounded up to a multiple of 65536, never below the size | not executed | `TrafficShaping.NormalizeSizeWrapsToZero` | `TrafficShaping.NormalizedSizeBounds` |
| sandbox/src/lib.rs:484 | the payload is sliced by the declared length out of a zeroed 65536-byte buffer, whatever was received | a 16-byte header declaring 4 payload bytes decodes to a payload of 4 zero bytes | a frame whose payload was not received is refused | not executed | `Sandbox.RecvInventsPayload` | `Sandbox.RecvFrameRoundTrip` |
| core/fingerprint/src/timing.rs:89 | `delay + jitter` in `u64`, which panics in a debug build and wraps in a release build | `fuzz_timer_delay(u64::MAX)` with a jitter of 1 gives 0 | a saturating sum, as `fuzz_date_now` uses, never below the request or the 4 ms minimum | not executed | `Timing.FuzzTimerDelayWrapsToZero` | `Timing.FuzzTimerDelay` |
