/** Header synthesis for outgoing requests: the fixed anonymity-set headers, the
    deny-list that strips identifying fields in place, and the stable sort into
    Firefox's canonical header order. A `Vec<(String, String)>` edited in place is an
    array of pairs; `retain` returns the length the vector keeps. */
module Headers {
  import opened Ints
  import opened Text
  import opened Seqs
  import opened Sorting
  import opened NetworkErrors

  // ---------------------------------------------------------------- anonymity sets

  const USER_AGENTS: seq<string> := [
    "Mozilla/5.0 (Windows NT 10.0; rv:115.0) Gecko/20100101 Firefox/115.0",
    "Mozilla/5.0 (X11; Linux x86_64; rv:115.0) Gecko/20100101 Firefox/115.0",
    "Mozilla/5.0 (Macintosh; Intel Mac OS X 10.15; rv:115.0) Gecko/20100101 Firefox/115.0"]

  const ACCEPT_LANGUAGES: seq<string> := ["en-US,en;q=0.5"]

  const ACCEPT_HTML: string :=
    "text/html,application/xhtml+xml,application/xml;q=0.9,image/avif,image/webp,*/*;q=0.8"

  const ACCEPT_IMAGE: string := "image/avif,image/webp,*/*"

  const ACCEPT_ENCODING: string := "gzip, deflate, br"

  datatype SyntheticHeaders = SyntheticHeaders(
    userAgent: string,
    accept: string,
    acceptLanguage: string,
    acceptEncoding: string)

  /** What every result of `generate` looks like: a user agent of the anonymity set,
      the HTML accept value and the single language and encoding values. */
  predicate IsGenerated(h: SyntheticHeaders)
  {
    && h.userAgent in USER_AGENTS
    && h.accept == ACCEPT_HTML
    && h.acceptLanguage == ACCEPT_LANGUAGES[0]
    && h.acceptEncoding == ACCEPT_ENCODING
  }

  /** Every user agent of the set is a Firefox one, as Tor Browser's are. */
  lemma UserAgentsAreFirefox(ua: string)
    requires ua in USER_AGENTS
    ensures Contains(ua, "Firefox")
  {
    if ua == USER_AGENTS[0] {
      WindowsAgentIsFirefox();
    } else if ua == USER_AGENTS[1] {
      LinuxAgentIsFirefox();
    } else {
      MacAgentIsFirefox();
    }
  }

  lemma WindowsAgentIsFirefox()
    ensures OccursAt(USER_AGENTS[0], "Firefox", 55)
  {
  }

  lemma LinuxAgentIsFirefox()
    ensures OccursAt(USER_AGENTS[1], "Firefox", 57)
  {
  }

  lemma MacAgentIsFirefox()
    ensures OccursAt(USER_AGENTS[2], "Firefox", 71)
  {
  }

  /** The one accept-language value is an English one. */
  lemma AcceptLanguageIsEnglish()
    ensures StartsWith(ACCEPT_LANGUAGES[0], "en")
  {
  }

  /** `generate`: the user agent is the random generator's pick among `USER_AGENTS`;
      the other three values are fixed. */
  method Generate() returns (h: SyntheticHeaders)
    ensures IsGenerated(h)
    ensures h.acceptLanguage == "en-US,en;q=0.5" && h.acceptEncoding == "gzip, deflate, br"
  {
    assert USER_AGENTS[0] in USER_AGENTS;
    var userAgent :| userAgent in USER_AGENTS;
    h := SyntheticHeaders(userAgent, ACCEPT_HTML, ACCEPT_LANGUAGES[0], ACCEPT_ENCODING);
  }

  /** `generate_for_image`: a `generate` result with the image accept value. */
  method GenerateForImage() returns (h: SyntheticHeaders)
    ensures IsGenerated(h.(accept := ACCEPT_HTML))
    ensures h.accept == ACCEPT_IMAGE
  {
    h := Generate();
    h := h.(accept := ACCEPT_IMAGE);
  }

  /** `to_header_list` (and `SyntheticHeaders::to_vec`, which calls it): the four
      synthesized values followed by six constant navigation headers. */
  function ToHeaderList(h: SyntheticHeaders): (r: seq<Header>)
    ensures |r| == 10
    ensures r[0] == ("User-Agent", h.userAgent) && r[1] == ("Accept", h.accept)
    ensures r[2] == ("Accept-Language", h.acceptLanguage) && r[3] == ("Accept-Encoding", h.acceptEncoding)
    ensures forall i :: 4 <= i < 10 ==> r[i] in FIXED_NAVIGATION_HEADERS
  {
    [("User-Agent", h.userAgent),
     ("Accept", h.accept),
     ("Accept-Language", h.acceptLanguage),
     ("Accept-Encoding", h.acceptEncoding)] + FIXED_NAVIGATION_HEADERS
  }

  const FIXED_NAVIGATION_HEADERS: seq<Header> := [
    ("Connection", "keep-alive"),
    ("Upgrade-Insecure-Requests", "1"),
    ("Sec-Fetch-Dest", "document"),
    ("Sec-Fetch-Mode", "navigate"),
    ("Sec-Fetch-Site", "none"),
    ("Sec-Fetch-User", "?1")]

  // ---------------------------------------------------------------- deny-list

  const DANGEROUS: seq<string> := [
    "cookie", "authorization", "proxy-authorization", "x-forwarded-for", "x-real-ip",
    "x-client-ip", "forwarded", "via", "x-request-id", "x-correlation-id", "dnt",
    "referer", "origin"]

  /** The `retain` test of `strip_dangerous_headers`: the lowercased name is not listed. */
  predicate KeepRequestHeader(h: Header)
  {
    Lower(h.0) !in DANGEROUS
  }

  /** `strip_dangerous_headers`: `retain` with the deny-list test; the vector keeps the
      first `len` slots. */
  method StripDangerousHeaders(a: array<Header>) returns (len: nat)
    modifies a
    ensures len <= a.Length
    ensures a[..len] == Filter(old(a[..]), KeepRequestHeader)
  {
    len := Retain(a, KeepRequestHeader);
  }

  /** After stripping, no listed name remains under any capitalisation, and every
      other header is still there, with its value. */
  lemma StripRemovesExactlyDangerous(s: seq<Header>, h: Header)
    ensures h in Filter(s, KeepRequestHeader) <==> h in s && Lower(h.0) !in DANGEROUS
  {
    FilterMembership(s, KeepRequestHeader, h);
  }

  /** Stripping keeps the survivors in their relative order, and a second pass
      removes nothing more. */
  lemma StripIsIdempotentSubsequence(s: seq<Header>)
    ensures IsSubsequence(Filter(s, KeepRequestHeader), s)
    ensures Filter(Filter(s, KeepRequestHeader), KeepRequestHeader) == Filter(s, KeepRequestHeader)
  {
    FilterIsSubsequence(s, KeepRequestHeader);
    FilterIdempotent(s, KeepRequestHeader);
  }

  // ---------------------------------------------------------------- canonical order

  const ORDER: seq<string> := [
    "host", "user-agent", "accept", "accept-language", "accept-encoding", "connection",
    "upgrade-insecure-requests", "sec-fetch-dest", "sec-fetch-mode", "sec-fetch-site",
    "sec-fetch-user", "content-type", "content-length"]

  /** `iter().position(..)`: the first index holding `name`, or `|table|` if none. */
  function Position(table: seq<string>, name: string): (p: nat)
    ensures p <= |table|
    ensures p < |table| ==> table[p] == name && name !in table[..p]
    ensures p == |table| <==> name !in table
  {
    if |table| == 0 then 0
    else if table[0] == name then 0
    else
      var p := Position(table[1..], name);
      assert table[1..][..p] == table[1..p + 1];
      p + 1
  }

  /** The first index holding `name` is the position. */
  lemma PositionOf(table: seq<string>, name: string, k: nat)
    requires k < |table| && table[k] == name && name !in table[..k]
    ensures Position(table, name) == k
  {
  }

  /** The sort key: the table position of the lowercased name, `usize::MAX` if absent. */
  function Rank(h: Header): (k: int)
    ensures k == USIZE_MAX || 0 <= k < |ORDER|
    ensures k < |ORDER| <==> Lower(h.0) in ORDER
    ensures k < |ORDER| ==> ORDER[k] == Lower(h.0) && Lower(h.0) !in ORDER[..k]
  {
    var p := Position(ORDER, Lower(h.0));
    if p < |ORDER| then p else USIZE_MAX
  }

  /** `normalize_header_order`: `sort_by` on the rank, a stable sort in place. */
  method NormalizeHeaderOrder(a: array<Header>)
    modifies a
    ensures a[..] == SortByKey(old(a[..]), Rank)
  {
    InsertionSort(a, Rank);
  }

  /** Normalizing keeps every header, value included: the output is a permutation. */
  lemma NormalizePermutes(s: seq<Header>)
    ensures multiset(SortByKey(s, Rank)) == multiset(s)
  {
    SortByKeyPermutes(s, Rank);
  }

  /** Known names come first, in table order; unknown names follow them. */
  lemma NormalizeOrdersByTable(s: seq<Header>)
    ensures var r := SortByKey(s, Rank);
      forall i, j :: 0 <= i < j < |r| ==>
        (Lower(r[j].0) in ORDER ==> Lower(r[i].0) in ORDER)
        && Position(ORDER, Lower(r[i].0)) <= Position(ORDER, Lower(r[j].0))
  {
    SortByKeySorted(s, Rank);
  }

  /** Headers of equal rank (the same known name, or any unknown names) keep their
      input order. */
  lemma NormalizeIsStable(s: seq<Header>, k: int)
    ensures Filter(SortByKey(s, Rank), HasKey(Rank, k)) == Filter(s, HasKey(Rank, k))
  {
    SortByKeyStable(s, Rank, k);
  }

  /** Normalizing an already normalized list changes nothing. */
  lemma NormalizeIdempotent(s: seq<Header>)
    ensures SortByKey(SortByKey(s, Rank), Rank) == SortByKey(s, Rank)
  {
    SortByKeyIdempotent(s, Rank);
  }

  lemma OrderDistinct()
    ensures forall k :: 0 <= k < |ORDER| ==> ORDER[k] !in ORDER[..k]
  {
    forall k | 0 <= k < |ORDER|
      ensures ORDER[k] !in ORDER[..k]
    {
      assert ORDER[..k] <= ORDER;
      assert multiset(ORDER[..k])[ORDER[k]] == 0;
    }
  }

  lemma RankOfKnown(h: Header, k: nat)
    requires k < |ORDER| && Lower(h.0) == ORDER[k]
    ensures Rank(h) == k
  {
    OrderDistinct();
    PositionOf(ORDER, ORDER[k], k);
  }

  lemma RankOfHost(v: string)
    ensures Rank(("Host", v)) == 0
  {
    assert Lower("Host") == ORDER[0];
    RankOfKnown(("Host", v), 0);
  }

  lemma RankOfUserAgent(v: string)
    ensures Rank(("User-Agent", v)) == 1
  {
    assert Lower("User-Agent") == ORDER[1];
    RankOfKnown(("User-Agent", v), 1);
  }

  lemma RankOfAccept(v: string)
    ensures Rank(("Accept", v)) == 2
  {
    assert Lower("Accept") == ORDER[2];
    RankOfKnown(("Accept", v), 2);
  }

  /** The example of the source's tests: Host first, then User-Agent, then Accept. */
  lemma NormalizeExample()
    ensures SortByKey([("Accept", "text/html"), ("Host", "example.com"), ("User-Agent", "Test")], Rank)
         == [("Host", "example.com"), ("User-Agent", "Test"), ("Accept", "text/html")]
  {
    RankOfAccept("text/html");
    RankOfHost("example.com");
    RankOfUserAgent("Test");
    SortThree(("Accept", "text/html"), ("Host", "example.com"), ("User-Agent", "Test"), Rank);
  }

  /** The names `to_header_list` emits, in order. */
  const LIST_NAMES: seq<string> := [
    "User-Agent", "Accept", "Accept-Language", "Accept-Encoding", "Connection",
    "Upgrade-Insecure-Requests", "Sec-Fetch-Dest", "Sec-Fetch-Mode", "Sec-Fetch-Site",
    "Sec-Fetch-User"]

  lemma UserAgentAcceptCanonical(i: nat)
    requires 0 <= i <= 2
    ensures Lower(LIST_NAMES[i]) == ORDER[i + 1]
  {
    if i == 0 {
      assert Lower(LIST_NAMES[0]) == ORDER[1];
    } else if i == 1 {
      assert Lower(LIST_NAMES[1]) == ORDER[2];
    } else {
      assert Lower(LIST_NAMES[2]) == ORDER[3];
    }
  }

  lemma EncodingConnectionCanonical(i: nat)
    requires 3 <= i <= 4
    ensures Lower(LIST_NAMES[i]) == ORDER[i + 1]
  {
    if i == 3 {
      assert Lower(LIST_NAMES[3]) == ORDER[4];
    } else {
      assert Lower(LIST_NAMES[4]) == ORDER[5];
    }
  }

  lemma UpgradeInsecureCanonical(i: nat)
    requires i == 5
    ensures Lower(LIST_NAMES[i]) == ORDER[i + 1]
  {
    assert Lower(LIST_NAMES[5]) == ORDER[6];
  }

  lemma FetchDestModeCanonical(i: nat)
    requires 6 <= i <= 7
    ensures Lower(LIST_NAMES[i]) == ORDER[i + 1]
  {
    if i == 6 {
      assert Lower(LIST_NAMES[6]) == ORDER[7];
    } else {
      assert Lower(LIST_NAMES[7]) == ORDER[8];
    }
  }

  lemma FetchSiteUserCanonical(i: nat)
    requires 8 <= i <= 9
    ensures Lower(LIST_NAMES[i]) == ORDER[i + 1]
  {
    if i == 8 {
      assert Lower(LIST_NAMES[8]) == ORDER[9];
    } else {
      assert Lower(LIST_NAMES[9]) == ORDER[10];
    }
  }

  /** Each name `to_header_list` emits lowercases to the next entry of the canonical
      table, so the list ranks 1, 2, .., 10. */
  lemma HeaderListRank(h: SyntheticHeaders, i: nat)
    requires i < 10
    ensures Rank(ToHeaderList(h)[i]) == i + 1
  {
    if i <= 2 {
      UserAgentAcceptCanonical(i);
    } else if i <= 4 {
      EncodingConnectionCanonical(i);
    } else if i == 5 {
      UpgradeInsecureCanonical(i);
    } else if i <= 7 {
      FetchDestModeCanonical(i);
    } else {
      FetchSiteUserCanonical(i);
    }
    assert ToHeaderList(h)[i].0 == LIST_NAMES[i];
    RankOfKnown(ToHeaderList(h)[i], i + 1);
  }

  /** A list whose ranks climb one by one is its own normal form. */
  lemma RankedListIsCanonical(r: seq<Header>)
    requires forall i :: 0 <= i < |r| ==> Rank(r[i]) == i + 1
    ensures SortByKey(r, Rank) == r
  {
    SortByKeyOfSorted(r, Rank);
  }

  /** `to_header_list` is already in canonical order: normalizing it changes nothing. */
  lemma ToHeaderListIsCanonical(h: SyntheticHeaders)
    ensures SortByKey(ToHeaderList(h), Rank) == ToHeaderList(h)
  {
    var r := ToHeaderList(h);
    forall i | 0 <= i < |r|
      ensures Rank(r[i]) == i + 1
    {
      HeaderListRank(h, i);
    }
    RankedListIsCanonical(r);
  }

  /** No canonical name after `host` is on the deny-list. */
  lemma CanonicalNamesNotDangerous(k: nat)
    requires 1 <= k <= 10
    ensures ORDER[k] !in DANGEROUS
  {
  }

  /** Stripping removes nothing from `to_header_list`. */
  lemma ToHeaderListSurvivesStrip(h: SyntheticHeaders)
    ensures Filter(ToHeaderList(h), KeepRequestHeader) == ToHeaderList(h)
  {
    var r := ToHeaderList(h);
    forall x | x in r
      ensures KeepRequestHeader(x)
    {
      var i :| 0 <= i < |r| && r[i] == x;
      HeaderListRank(h, i);
      CanonicalNamesNotDangerous(i + 1);
    }
    FilterKeepsAll(r, KeepRequestHeader);
  }

  lemma CookieIsDangerous(v: string)
    ensures !KeepRequestHeader(("Cookie", v))
  {
    assert Lower("Cookie") == DANGEROUS[0];
  }

  lemma RefererIsDangerous(v: string)
    ensures !KeepRequestHeader(("Referer", v))
  {
    assert Lower("Referer") == DANGEROUS[11];
  }

  lemma UserAgentIsKept(v: string)
    ensures KeepRequestHeader(("User-Agent", v))
  {
    UserAgentAcceptCanonical(0);
    CanonicalNamesNotDangerous(1);
  }

  lemma AcceptIsKept(v: string)
    ensures KeepRequestHeader(("Accept", v))
  {
    UserAgentAcceptCanonical(1);
    CanonicalNamesNotDangerous(2);
  }

  /** The example of the source's tests: Cookie and Referer go, User-Agent and Accept
      stay, in their order. */
  lemma StripExample()
    ensures Filter([("User-Agent", "Test"), ("Cookie", "bad=tracking"),
                    ("Referer", "https://previous.site"), ("Accept", "text/html")], KeepRequestHeader)
         == [("User-Agent", "Test"), ("Accept", "text/html")]
  {
    UserAgentIsKept("Test");
    CookieIsDangerous("bad=tracking");
    RefererIsDangerous("https://previous.site");
    AcceptIsKept("text/html");
    FilterFirstAndLast(("User-Agent", "Test"), ("Cookie", "bad=tracking"),
                       ("Referer", "https://previous.site"), ("Accept", "text/html"), KeepRequestHeader);
  }
}
