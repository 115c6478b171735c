/** Navigator property spoofing: the navigator object reports a standard Firefox
    on a given platform, with cookies, plugins, automation and device access all
    reported off or denied. */
module Navigator {
  import opened Ints
  import opened Wrappers

  datatype NavigatorDefense = NavigatorDefense(
    userAgent: string, platform: string, timezoneOffset: i32, language: string)

  const DEFAULT_USER_AGENT: string :=
    "Mozilla/5.0 (Windows NT 10.0; rv:115.0) Gecko/20100101 Firefox/115.0"
  const LANGUAGE: string := "en-US"

  /** `NavigatorDefense::new`, which `Default::default` also gives: Firefox 115 on
      Windows, at UTC, in US English. */
  function New(): (d: NavigatorDefense)
    ensures d.platform == "Win32" && d.timezoneOffset == 0 && d.language == LANGUAGE
    ensures d.userAgent == DEFAULT_USER_AGENT
  {
    NavigatorDefense(DEFAULT_USER_AGENT, "Win32", 0, LANGUAGE)
  }

  /** `with_identity`: the identity's user agent, platform and offset are kept,
      but the language is always US English. */
  function WithIdentity(userAgent: string, platform: string, timezoneOffset: i32): (d: NavigatorDefense)
    ensures d.userAgent == userAgent && d.platform == platform
    ensures d.timezoneOffset == timezoneOffset && d.language == LANGUAGE
  {
    NavigatorDefense(userAgent, platform, timezoneOffset, LANGUAGE)
  }

  /** The default defense is the identity of the default user agent on Windows at
      UTC: `new` is one case of `with_identity`. */
  lemma NewIsAnIdentity()
    ensures New() == WithIdentity(DEFAULT_USER_AGENT, "Win32", 0)
  {
  }

  function TimezoneOffset(d: NavigatorDefense): i32 { d.timezoneOffset }
  function Locale(d: NavigatorDefense): string { d.language }

  const WINDOWS_OSCPU: string := "Windows NT 10.0; Win64; x64"
  const LINUX_OSCPU: string := "Linux x86_64"
  const MAC_OSCPU: string := "Intel Mac OS X 10.15"

  /** `get_oscpu`: a fixed string per known platform, Windows for any other. */
  function GetOscpu(d: NavigatorDefense): (r: string)
    ensures r in {WINDOWS_OSCPU, LINUX_OSCPU, MAC_OSCPU}
    ensures r == MAC_OSCPU <==> d.platform == "MacIntel"
    ensures r == LINUX_OSCPU <==> d.platform == "Linux x86_64"
  {
    match d.platform
    case "Win32" => WINDOWS_OSCPU
    case "Linux x86_64" => LINUX_OSCPU
    case "MacIntel" => MAC_OSCPU
    case _ => WINDOWS_OSCPU
  }

  datatype NavigatorProperties = NavigatorProperties(
    userAgent: string, platform: string, language: string, languages: seq<string>,
    appName: string, appVersion: string, appCodeName: string, product: string,
    productSub: string, vendor: string, vendorSub: string, buildId: string,
    oscpu: string, cookieEnabled: bool, doNotTrack: Option<string>, pdfViewerEnabled: bool,
    webdriver: bool, online: bool, pluginsLength: usize, mimeTypesLength: usize)

  /** What every page sees regardless of identity: no cookies, no automation flag,
      no Do Not Track header, no plugins or MIME types, and US English. */
  predicate Standardized(p: NavigatorProperties)
  {
    && !p.cookieEnabled && !p.webdriver && p.doNotTrack == None
    && p.pluginsLength == 0 && p.mimeTypesLength == 0
    && p.languages == [LANGUAGE, "en"]
  }

  /** `get_properties`: the identity's user agent, platform and language, the
      OS/CPU string of the platform, and Firefox's fixed values. */
  function GetProperties(d: NavigatorDefense): (p: NavigatorProperties)
    ensures p.userAgent == d.userAgent && p.platform == d.platform && p.language == d.language
    ensures p.oscpu == GetOscpu(d)
    ensures Standardized(p)
  {
    NavigatorProperties(d.userAgent, d.platform, d.language, [LANGUAGE, "en"],
      "Netscape", "5.0 (Windows)", "Mozilla", "Gecko", "20100101", "", "",
      "20181001000000", GetOscpu(d), false, None, true, false, true, 0, 0)
  }

  /** Two identities on the same platform differ in their properties only in the
      user agent: every other field a page can read is the same. */
  lemma PropertiesDependOnIdentityOnly(ua1: string, ua2: string, platform: string, o1: i32, o2: i32)
    ensures GetProperties(WithIdentity(ua1, platform, o1)).(userAgent := ua2)
      == GetProperties(WithIdentity(ua2, platform, o2))
  {
  }

  /** The example of the source's tests: the default user agent names Firefox, and
      cookies, automation and plugins are off. */
  lemma DefaultPropertiesExample()
    ensures var p := GetProperties(New());
      p.userAgent[55..62] == "Firefox" && !p.cookieEnabled && !p.webdriver && p.pluginsLength == 0
  {
  }

  /** `get_permission_state`: every permission is denied. */
  function GetPermissionState(name: string): string
  {
    "denied"
  }

  /** `GeolocationDefense::should_fail`. */
  function ShouldFail(): bool
  {
    true
  }

  /** `credentials_available`. */
  function CredentialsAvailable(): bool
  {
    false
  }

  /** `get_media_devices`: no device is listed. */
  function GetMediaDevices(): seq<()>
  {
    []
  }

  /** Device access is refused whatever is asked: every permission is denied,
      geolocation fails, no credential store and no media device. */
  lemma AccessRefused(name: string)
    ensures GetPermissionState(name) == "denied"
    ensures ShouldFail() && !CredentialsAvailable() && GetMediaDevices() == []
  {
  }
}
