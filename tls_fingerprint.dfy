/** The fixed TLS ClientHello profile (Tor Browser 13 / Firefox ESR 115) and the
    HTTP/2 connection fingerprint sent with it. Nothing here changes after
    construction: every member is a constant or a lookup. */
module TlsFingerprint {
  import opened Ints
  import opened Wrappers
  import opened NetworkErrors

  datatype TlsVersion = Tls12 | Tls13

  /** The wire value of a protocol version (section 4.2.1 of RFC 8446). */
  function VersionCode(v: TlsVersion): (code: u16)
    ensures code == 0x0303 || code == 0x0304
    ensures v == Tls13 <==> code == 0x0304
  {
    match v
    case Tls12 => 0x0303
    case Tls13 => 0x0304
  }

  datatype TlsConfig = TlsConfig(
    cipherSuites: seq<u16>,
    extensions: seq<u16>,
    supportedGroups: seq<u16>,
    signatureAlgorithms: seq<u16>,
    alpnProtocols: seq<string>,
    minVersion: TlsVersion,
    maxVersion: TlsVersion)

  // Code points from the IANA TLS registries referenced by section 4 of RFC 8446.
  const TLS_AES_128_GCM_SHA256: u16 := 0x1301
  const TLS_AES_256_GCM_SHA384: u16 := 0x1302
  const TLS_CHACHA20_POLY1305_SHA256: u16 := 0x1303
  const EXT_SUPPORTED_GROUPS: u16 := 0x000a
  const EXT_SIGNATURE_ALGORITHMS: u16 := 0x000d
  const EXT_SUPPORTED_VERSIONS: u16 := 0x002b
  const EXT_KEY_SHARE: u16 := 0x0033
  const EXT_PRE_SHARED_KEY: u16 := 0x0029
  const GROUP_X25519: u16 := 0x001d

  const CIPHER_SUITES: seq<u16> := [
    0x1301, 0x1303, 0x1302, 0xc02b, 0xc02f, 0xc02c, 0xc030, 0xcca9,
    0xcca8, 0xc013, 0xc014, 0x009c, 0x009d, 0x002f, 0x0035]

  const EXTENSIONS: seq<u16> := [
    0x0000, 0x0017, 0xff01, 0x000a, 0x000b, 0x0023, 0x0010, 0x0005,
    0x0022, 0x0033, 0x002b, 0x000d, 0x001c, 0x001b, 0x0029]

  const SUPPORTED_GROUPS: seq<u16> := [0x001d, 0x0017, 0x0018, 0x0019, 0x0100, 0x0101]

  const SIGNATURE_ALGORITHMS: seq<u16> := [
    0x0403, 0x0503, 0x0603, 0x0804, 0x0805, 0x0806, 0x0401, 0x0501, 0x0601]

  const ALPN_PROTOCOLS: seq<string> := ["h2", "http/1.1"]

  predicate Distinct<T(==)>(s: seq<T>)
  {
    forall i, j :: 0 <= i < j < |s| ==> s[i] != s[j]
  }

  /** No cipher suite is offered twice. */
  lemma CipherSuitesDistinct()
    ensures Distinct(CIPHER_SUITES)
  {
    var s := CIPHER_SUITES;
    forall i, j | 0 <= i < j < |s|
      ensures s[i] != s[j]
    {
      assert s[i] in multiset(s[..j]);
    }
  }

  /** No extension type is listed twice (section 4.2 of RFC 8446). */
  lemma ExtensionsDistinct()
    ensures Distinct(EXTENSIONS)
  {
    var s := EXTENSIONS;
    forall i, j | 0 <= i < j < |s|
      ensures s[i] != s[j]
    {
      assert s[i] in multiset(s[..j]);
    }
  }

  /** What section 4 of RFC 8446 asks of a ClientHello offering TLS 1.3: no code point
      listed twice (4.2: one extension of each type), `supported_versions` present
      (4.2.1), `supported_groups`, `key_share` and `signature_algorithms` present
      (4.2.3, 4.2.7, 4.2.8), `pre_shared_key`, if offered, last (4.2.11), and a
      version range that is not empty. */
  predicate OffersTls13Properly(c: TlsConfig)
  {
    && Distinct(c.cipherSuites) && Distinct(c.extensions)
    && Distinct(c.supportedGroups) && Distinct(c.signatureAlgorithms)
    && |c.supportedGroups| > 0 && |c.signatureAlgorithms| > 0
    && c.maxVersion == Tls13
    && VersionCode(c.minVersion) <= VersionCode(c.maxVersion)
    && EXT_SUPPORTED_VERSIONS in c.extensions
    && EXT_SUPPORTED_GROUPS in c.extensions
    && EXT_KEY_SHARE in c.extensions
    && EXT_SIGNATURE_ALGORITHMS in c.extensions
    && (EXT_PRE_SHARED_KEY in c.extensions ==> c.extensions[|c.extensions| - 1] == EXT_PRE_SHARED_KEY)
  }

  /** `tor_browser_config`: the five fixed lists and the TLS 1.2 .. 1.3 range. */
  function TorBrowserConfig(): (c: TlsConfig)
    ensures |c.cipherSuites| == 15 && c.cipherSuites[0] == TLS_AES_128_GCM_SHA256
    ensures |c.extensions| == 15 && |c.supportedGroups| == 6 && |c.signatureAlgorithms| == 9
    ensures c.supportedGroups[0] == GROUP_X25519
    ensures c.alpnProtocols == ["h2", "http/1.1"]
    ensures c.minVersion == Tls12 && c.maxVersion == Tls13
  {
    TlsConfig(CIPHER_SUITES, EXTENSIONS, SUPPORTED_GROUPS, SIGNATURE_ALGORITHMS,
              ALPN_PROTOCOLS, Tls12, Tls13)
  }

  /** The profile satisfies the ClientHello rules of RFC 8446 it claims to follow. */
  lemma TorBrowserConfigOffersTls13()
    ensures OffersTls13Properly(TorBrowserConfig())
  {
    var c := TorBrowserConfig();
    CipherSuitesDistinct();
    ExtensionsDistinct();
    assert c.extensions[10] == EXT_SUPPORTED_VERSIONS && c.extensions[3] == EXT_SUPPORTED_GROUPS;
    assert c.extensions[9] == EXT_KEY_SHARE && c.extensions[11] == EXT_SIGNATURE_ALGORITHMS;
  }

  /** The three TLS 1.3 suites of section 9.1 of RFC 8446 are all offered, ahead of
      every TLS 1.2 suite. */
  lemma Tls13SuitesFirst()
    ensures var s := TorBrowserConfig().cipherSuites;
      multiset(s[..3]) == multiset{TLS_AES_128_GCM_SHA256, TLS_AES_256_GCM_SHA384, TLS_CHACHA20_POLY1305_SHA256}
      && forall i :: 3 <= i < |s| ==> s[i] !in s[..3]
  {
    var s := TorBrowserConfig().cipherSuites;
    assert s[..3] == [0x1301, 0x1303, 0x1302];
  }

  /** `TlsFingerprintNormalizer`: holds the profile it was built with. */
  datatype TlsFingerprintNormalizer = TlsFingerprintNormalizer(config: TlsConfig)

  /** `TlsFingerprintNormalizer::new` (and `default`). */
  function NewNormalizer(): (n: TlsFingerprintNormalizer)
    ensures OffersTls13Properly(n.config)
    ensures |n.config.cipherSuites| > 10 && n.config.cipherSuites[0] == TLS_AES_128_GCM_SHA256
  {
    TorBrowserConfigOffersTls13();
    TlsFingerprintNormalizer(TorBrowserConfig())
  }

  /** `create_config`: never fails, and hands out a copy of the one profile, so every
      call on a normalizer yields the same configuration. */
  function CreateConfig(n: TlsFingerprintNormalizer): (r: Result<TlsConfig, NetworkError>)
    ensures r.Success?
    ensures r.value == n.config
  {
    Success(n.config)
  }

  /** Whatever normalizer a connection gets, its configuration is the Tor Browser one. */
  lemma CreateConfigIsTorBrowser()
    ensures CreateConfig(NewNormalizer()) == Success(TorBrowserConfig())
    ensures OffersTls13Properly(CreateConfig(NewNormalizer()).value)
  {
  }

  /** `verify_client_hello`: accepts exactly the non-empty byte strings (the ClientHello
      structure itself is not parsed). */
  function VerifyClientHello(n: TlsFingerprintNormalizer, clientHello: seq<u8>): (ok: bool)
    ensures ok <==> |clientHello| > 0
  {
    |clientHello| != 0
  }

  // ---------------------------------------------------------------- HTTP/2

  datatype Http2Priority = Http2Priority(dependsOn: u32, weight: u8, exclusive: bool)

  datatype Http2Fingerprint = Http2Fingerprint(
    settings: seq<(u16, u32)>,
    windowUpdate: u32,
    priority: Http2Priority)

  const SETTINGS_HEADER_TABLE_SIZE: u16 := 0x1
  const SETTINGS_ENABLE_PUSH: u16 := 0x2
  const SETTINGS_MAX_CONCURRENT_STREAMS: u16 := 0x3
  const SETTINGS_INITIAL_WINDOW_SIZE: u16 := 0x4
  const SETTINGS_MAX_FRAME_SIZE: u16 := 0x5
  const SETTINGS_MAX_HEADER_LIST_SIZE: u16 := 0x6

  const MAX_WINDOW_SIZE: int := 0x7FFF_FFFF

  /** A SETTINGS parameter is legal for its identifier (section 6.5.2 of RFC 9113):
      ENABLE_PUSH is 0 or 1, INITIAL_WINDOW_SIZE at most 2^31-1, MAX_FRAME_SIZE between
      2^14 and 2^24-1; the other defined parameters take any 32-bit value. */
  predicate ValidSetting(s: (u16, u32))
  {
    1 <= s.0 <= 6
    && (s.0 == SETTINGS_ENABLE_PUSH ==> s.1 <= 1)
    && (s.0 == SETTINGS_INITIAL_WINDOW_SIZE ==> s.1 <= MAX_WINDOW_SIZE)
    && (s.0 == SETTINGS_MAX_FRAME_SIZE ==> 0x4000 <= s.1 <= 0xFF_FFFF)
  }

  /** `Http2Fingerprint::default`: the Firefox SETTINGS frame, window update and
      header priority. */
  function DefaultHttp2Fingerprint(): (f: Http2Fingerprint)
    ensures |f.settings| == 6
    ensures forall i :: 0 <= i < 6 ==> f.settings[i].0 == i + 1
    ensures f.settings[1] == (SETTINGS_ENABLE_PUSH, 0)
    ensures f.windowUpdate == 12517377
    ensures f.priority == Http2Priority(0, 41, false)
  {
    Http2Fingerprint(
      [(SETTINGS_HEADER_TABLE_SIZE, 65536), (SETTINGS_ENABLE_PUSH, 0),
       (SETTINGS_MAX_CONCURRENT_STREAMS, 0), (SETTINGS_INITIAL_WINDOW_SIZE, 131072),
       (SETTINGS_MAX_FRAME_SIZE, 16384), (SETTINGS_MAX_HEADER_LIST_SIZE, 0)],
      12517377,
      Http2Priority(0, 41, false))
  }

  /** The default fingerprint is a legal HTTP/2 preface: every setting is valid for its
      identifier, identifiers are strictly ascending (so none repeats), and the
      WINDOW_UPDATE increment lies in 1 .. 2^31-1 (section 6.9 of RFC 9113). */
  lemma DefaultHttp2IsLegal()
    ensures var f := DefaultHttp2Fingerprint();
      (forall i :: 0 <= i < |f.settings| ==> ValidSetting(f.settings[i]))
      && (forall i, j :: 0 <= i < j < |f.settings| ==> f.settings[i].0 < f.settings[j].0)
      && 1 <= f.windowUpdate <= MAX_WINDOW_SIZE
  {
  }
}
