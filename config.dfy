/** The command line of the browser and its compiled-in configuration: the argument
    scanner, the two copies of the secure defaults, and the check that refuses any
    configuration weakening privacy. */
module Config {
  import opened Ints
  import opened Wrappers
  import opened Text

  // ---------------------------------------------------------------- command line

  /** `ForloopCli`. */
  datatype Cli = Cli(
    url: Option<string>,
    newLoop: bool,
    killAllState: bool,
    useBridges: bool,
    bridges: seq<string>,
    verbose: bool,
    version: bool,
    help: bool)

  /** The state `parse_args` starts from: nothing set. */
  function EmptyCli(): Cli
  {
    Cli(None, false, false, false, [], false, false, false)
  }

  /** The six boolean options. */
  datatype Flag = NewLoop | KillAllState | UseBridges | Verbose | Version | Help

  /** The spellings that set each option. */
  function Spellings(f: Flag): set<string>
  {
    match f
    case NewLoop => {"--new-loop", "-n"}
    case KillAllState => {"--kill-all-state", "-k"}
    case UseBridges => {"--use-bridges"}
    case Verbose => {"--verbose", "-v"}
    case Version => {"--version", "-V"}
    case Help => {"--help", "-h"}
  }

  function Get(c: Cli, f: Flag): bool
  {
    match f
    case NewLoop => c.newLoop
    case KillAllState => c.killAllState
    case UseBridges => c.useBridges
    case Verbose => c.verbose
    case Version => c.version
    case Help => c.help
  }

  /** Whether an argument is an option: Rust's `starts_with('-')`. */
  predicate IsOption(arg: string)
  {
    |arg| > 0 && arg[0] == '-'
  }

  /** The arms of the `match` in `parse_args` that set an option, in their order. */
  const OPTIONS: seq<(string, Flag)> := [
    ("--new-loop", NewLoop), ("-n", NewLoop), ("--kill-all-state", KillAllState), ("-k", KillAllState),
    ("--use-bridges", UseBridges), ("--verbose", Verbose), ("-v", Verbose), ("--version", Version),
    ("-V", Version), ("--help", Help), ("-h", Help)]

  /** The first arm of `table` that matches `arg`. */
  function Lookup(table: seq<(string, Flag)>, arg: string): (r: Option<Flag>)
    ensures r.Some? ==> (arg, r.value) in table
  {
    if |table| == 0 then None
    else if table[0].0 == arg then Some(table[0].1)
    else Lookup(table[1..], arg)
  }

  /** The option an argument spells. */
  function Recognised(arg: string): Option<Flag>
  {
    Lookup(OPTIONS, arg)
  }

  function Set(c: Cli, f: Flag): Cli
  {
    match f
    case NewLoop => c.(newLoop := true)
    case KillAllState => c.(killAllState := true)
    case UseBridges => c.(useBridges := true)
    case Verbose => c.(verbose := true)
    case Version => c.(version := true)
    case Help => c.(help := true)
  }

  /** One arm of the `match` in `parse_args`, for any argument but `--bridge`: an
      option sets its field, an argument that is not an option becomes the url, an
      unknown option is ignored. */
  function Apply(c: Cli, arg: string): Cli
  {
    match Recognised(arg)
    case Some(f) => Set(c, f)
    case None => if !IsOption(arg) then c.(url := Some(arg)) else c
  }

  /** The scan of the arguments still to be read: `--bridge` takes the argument after
      it, when there is one, as a bridge line; every other argument is one arm of the
      match. */
  function Scan(rest: seq<string>, c: Cli): Cli
    decreases |rest|
  {
    if |rest| == 0 then c
    else if rest[0] == "--bridge" then
      if |rest| > 1 then Scan(rest[2..], c.(bridges := c.bridges + [rest[1]])) else c
    else Scan(rest[1..], Apply(c, rest[0]))
  }

  /** What `parse_args` yields: the scan of everything after the program name. */
  function Parsed(args: seq<string>): Cli
  {
    if |args| == 0 then EmptyCli() else Scan(args[1..], EmptyCli())
  }

  /** `ForloopCli::parse_args`: the index-driven loop over `args`, from index 1. */
  method ParseArgs(args: seq<string>) returns (cli: Cli)
    ensures cli == Parsed(args)
  {
    cli := EmptyCli();
    var i := 1;
    while i < |args|
      invariant 1 <= i <= |args| + 1
      invariant i <= |args| ==> Parsed(args) == Scan(args[i..], cli)
      invariant i == |args| + 1 ==> Parsed(args) == cli
    {
      assert args[i..][0] == args[i];
      if args[i] == "--bridge" {
        i := i + 1;
        if i < |args| {
          assert args[i - 1..][1] == args[i] && args[i - 1..][2..] == args[i + 1..];
          cli := cli.(bridges := cli.bridges + [args[i]]);
        }
      } else {
        assert args[i..][1..] == args[i + 1..];
        cli := Apply(cli, args[i]);
      }
      i := i + 1;
    }
  }

  /** The program name is never interpreted, whatever it looks like. */
  lemma ProgramNameIgnored(p: string, q: string, rest: seq<string>)
    ensures Parsed([p] + rest) == Parsed([q] + rest) == Scan(rest, EmptyCli())
  {
    assert ([p] + rest)[1..] == rest;
    assert ([q] + rest)[1..] == rest;
  }

  predicate UniqueNames(table: seq<(string, Flag)>)
  {
    forall i, j :: 0 <= i < j < |table| ==> table[i].0 != table[j].0
  }

  lemma {:induction false} LookupUnique(table: seq<(string, Flag)>, arg: string, f: Flag)
    requires UniqueNames(table) && (arg, f) in table
    ensures Lookup(table, arg) == Some(f)
  {
    if table[0] != (arg, f) {
      var k :| 0 <= k < |table| && table[k] == (arg, f);
      assert table[1..][k - 1] == table[k];
      LookupUnique(table[1..], arg, f);
    }
  }

  lemma OptionNamesUnique()
    ensures UniqueNames(OPTIONS)
  {
    forall i, j | 0 <= i < j < |OPTIONS|
      ensures OPTIONS[i].0 != OPTIONS[j].0
    {
      var a, b := OPTIONS[i].0, OPTIONS[j].0;
      if |a| == |b| {
        assert a[1] != b[1] || a[6] != b[6];
      }
    }
  }

  /** The table spells each option exactly as the help text lists it. */
  lemma RecognisedIsSpelling(arg: string, f: Flag)
    ensures Recognised(arg) == Some(f) <==> arg in Spellings(f)
  {
    OptionNamesUnique();
    if arg in Spellings(f) {
      assert (arg, f) in OPTIONS;
      LookupUnique(OPTIONS, arg, f);
    }
  }

  /** Each recognised spelling, long or short, sets its own option and nothing else;
      no other argument sets any option. */
  lemma ApplySetsItsOwnFlag(c: Cli, arg: string, f: Flag)
    ensures Get(Apply(c, arg), f) <==> Get(c, f) || arg in Spellings(f)
    ensures Apply(c, arg).bridges == c.bridges
  {
    ApplyGet(c, arg, f);
    RecognisedIsSpelling(arg, f);
  }

  lemma ApplyGet(c: Cli, arg: string, f: Flag)
    ensures Get(Apply(c, arg), f) <==> Get(c, f) || Recognised(arg) == Some(f)
    ensures Apply(c, arg).bridges == c.bridges
  {
    var r := Recognised(arg);
    if r.Some? {
      SetGet(c, r.value, f);
    }
  }

  lemma SetGet(c: Cli, g: Flag, f: Flag)
    ensures Get(Set(c, g), f) <==> Get(c, f) || g == f
    ensures Set(c, g).bridges == c.bridges && Set(c, g).url == c.url
  {
  }

  /** An argument that is not an option becomes the url; an unknown option changes
      nothing. */
  lemma ApplyUnknown(c: Cli, arg: string)
    requires forall f: Flag :: arg !in Spellings(f)
    ensures !IsOption(arg) ==> Apply(c, arg) == c.(url := Some(arg))
    ensures IsOption(arg) ==> Apply(c, arg) == c
  {
    if Recognised(arg).Some? {
      RecognisedIsSpelling(arg, Recognised(arg).value);
    }
  }

  /** The options never change the url, the url never changes an option. */
  lemma ApplyUrl(c: Cli, arg: string)
    ensures Apply(c, arg).url == if IsOption(arg) then c.url else Some(arg)
  {
    var r := Recognised(arg);
    if r.Some? {
      SetGet(c, r.value, NewLoop);
      RecognisedIsOption(arg);
    }
  }

  /** Every spelling in the table starts with '-'. */
  lemma RecognisedIsOption(arg: string)
    requires Recognised(arg).Some?
    ensures IsOption(arg)
  {
    var k :| 0 <= k < |OPTIONS| && OPTIONS[k] == (arg, Recognised(arg).value);
  }

  // ---------------------------------------------------------------- tokens

  /** The arguments after the program name, grouped as `parse_args` reads them: a
      `--bridge` with the line after it, a `--bridge` with nothing after it, or a
      single argument. */
  datatype Token = Word(arg: string) | BridgeLine(line: string) | TrailingBridge

  function Tokenize(rest: seq<string>): (ts: seq<Token>)
    ensures |ts| <= |rest|
    decreases |rest|
  {
    if |rest| == 0 then []
    else if rest[0] == "--bridge" then
      if |rest| > 1 then [BridgeLine(rest[1])] + Tokenize(rest[2..]) else [TrailingBridge]
    else [Word(rest[0])] + Tokenize(rest[1..])
  }

  /** Some single argument spells option `f`. */
  predicate Mentions(ts: seq<Token>, f: Flag)
  {
    exists i :: 0 <= i < |ts| && ts[i].Word? && ts[i].arg in Spellings(f)
  }

  /** The bridge lines, in order. */
  function BridgeLines(ts: seq<Token>): (lines: seq<string>)
    ensures |lines| <= |ts|
  {
    if |ts| == 0 then []
    else (if ts[0].BridgeLine? then [ts[0].line] else []) + BridgeLines(ts[1..])
  }

  /** A single argument that is not an option: a url. */
  predicate IsUrlWord(t: Token)
  {
    t.Word? && !IsOption(t.arg)
  }

  lemma MentionsCons(t: Token, ts: seq<Token>, f: Flag)
    ensures Mentions([t] + ts, f) <==> (t.Word? && t.arg in Spellings(f)) || Mentions(ts, f)
  {
    var s := [t] + ts;
    if Mentions(ts, f) {
      var i :| 0 <= i < |ts| && ts[i].Word? && ts[i].arg in Spellings(f);
      assert s[i + 1] == ts[i];
    }
    if Mentions(s, f) {
      var i :| 0 <= i < |s| && s[i].Word? && s[i].arg in Spellings(f);
      if i > 0 {
        assert ts[i - 1] == s[i];
      }
    }
    if t.Word? && t.arg in Spellings(f) {
      assert s[0] == t;
    }
  }

  /** An option ends up set exactly when it was set before or one of the single
      arguments spells it; a bridge line never does, even when it looks like an
      option. */
  lemma {:induction false} ScanFlag(rest: seq<string>, c: Cli, f: Flag)
    ensures Get(Scan(rest, c), f) <==> Get(c, f) || Mentions(Tokenize(rest), f)
    decreases |rest|
  {
    if |rest| == 0 {
    } else if rest[0] == "--bridge" {
      if |rest| > 1 {
        ScanFlag(rest[2..], c.(bridges := c.bridges + [rest[1]]), f);
        MentionsCons(BridgeLine(rest[1]), Tokenize(rest[2..]), f);
      } else {
        MentionsCons(TrailingBridge, [], f);
      }
    } else {
      ScanFlag(rest[1..], Apply(c, rest[0]), f);
      ApplySetsItsOwnFlag(c, rest[0], f);
      MentionsCons(Word(rest[0]), Tokenize(rest[1..]), f);
    }
  }

  /** The bridge lines are appended in the order given; a trailing `--bridge` adds
      nothing. */
  lemma {:induction false} ScanBridges(rest: seq<string>, c: Cli)
    ensures Scan(rest, c).bridges == c.bridges + BridgeLines(Tokenize(rest))
    decreases |rest|
  {
    if |rest| == 0 {
    } else if rest[0] == "--bridge" {
      if |rest| > 1 {
        ScanBridges(rest[2..], c.(bridges := c.bridges + [rest[1]]));
        BridgeStep(rest, c);
      } else {
        BridgeLinesCons(TrailingBridge, []);
      }
    } else {
      ScanBridges(rest[1..], Apply(c, rest[0]));
      WordStep(rest, c);
    }
  }

  /** A `--bridge` and its line add that line to the bridges. */
  lemma BridgeStep(rest: seq<string>, c: Cli)
    requires |rest| > 1 && rest[0] == "--bridge"
    requires Scan(rest[2..], c.(bridges := c.bridges + [rest[1]])).bridges
      == c.bridges + [rest[1]] + BridgeLines(Tokenize(rest[2..]))
    ensures Scan(rest, c).bridges == c.bridges + BridgeLines(Tokenize(rest))
  {
    ScanBridgeBridges(rest, c);
    TokenizeBridgeLines(rest);
  }

  lemma ScanBridgeBridges(rest: seq<string>, c: Cli)
    requires |rest| > 1 && rest[0] == "--bridge"
    ensures Scan(rest, c).bridges == Scan(rest[2..], c.(bridges := c.bridges + [rest[1]])).bridges
  {
    ScanBridge(rest, c);
  }

  lemma TokenizeBridgeLines(rest: seq<string>)
    requires |rest| > 1 && rest[0] == "--bridge"
    ensures BridgeLines(Tokenize(rest)) == [rest[1]] + BridgeLines(Tokenize(rest[2..]))
  {
    TokenizeBridge(rest);
    BridgeLinesCons(BridgeLine(rest[1]), Tokenize(rest[2..]));
  }

  /** Any other single argument leaves the bridges alone. */
  lemma WordStep(rest: seq<string>, c: Cli)
    requires |rest| > 0 && rest[0] != "--bridge"
    requires Scan(rest[1..], Apply(c, rest[0])).bridges
      == Apply(c, rest[0]).bridges + BridgeLines(Tokenize(rest[1..]))
    ensures Scan(rest, c).bridges == c.bridges + BridgeLines(Tokenize(rest))
  {
    ScanWordBridges(rest, c);
    TokenizeWordLines(rest);
    ApplySetsItsOwnFlag(c, rest[0], NewLoop);
  }

  lemma ScanWordBridges(rest: seq<string>, c: Cli)
    requires |rest| > 0 && rest[0] != "--bridge"
    ensures Scan(rest, c).bridges == Scan(rest[1..], Apply(c, rest[0])).bridges
  {
    ScanWord(rest, c);
  }

  lemma TokenizeWordLines(rest: seq<string>)
    requires |rest| > 0 && rest[0] != "--bridge"
    ensures BridgeLines(Tokenize(rest)) == BridgeLines(Tokenize(rest[1..]))
  {
    TokenizeWord(rest);
    BridgeLinesCons(Word(rest[0]), Tokenize(rest[1..]));
  }

  lemma TokenizeWord(rest: seq<string>)
    requires |rest| > 0 && rest[0] != "--bridge"
    ensures Tokenize(rest) == [Word(rest[0])] + Tokenize(rest[1..])
  {
  }

  lemma TokenizeBridge(rest: seq<string>)
    requires |rest| > 1 && rest[0] == "--bridge"
    ensures Tokenize(rest) == [BridgeLine(rest[1])] + Tokenize(rest[2..])
  {
  }

  /** The bridge lines of a token list are those of its head, then those of the rest. */
  lemma BridgeLinesCons(t: Token, ts: seq<Token>)
    ensures BridgeLines([t] + ts) == (if t.BridgeLine? then [t.line] else []) + BridgeLines(ts)
  {
    assert ([t] + ts)[1..] == ts;
  }

  /** The url the arguments leave behind, read from the end: the last url argument,
      or `before` when there is none. */
  function LastUrl(ts: seq<Token>, before: Option<string>): (url: Option<string>)
    ensures url == before || exists i :: 0 <= i < |ts| && IsUrlWord(ts[i]) && url == Some(ts[i].arg)
  {
    if |ts| == 0 then before
    else if IsUrlWord(ts[|ts| - 1]) then Some(ts[|ts| - 1].arg)
    else LastUrl(ts[..|ts| - 1], before)
  }

  /** Reading from the end agrees with reading from the front. */
  lemma {:induction false} LastUrlCons(t: Token, ts: seq<Token>, before: Option<string>)
    ensures LastUrl([t] + ts, before) == LastUrl(ts, if IsUrlWord(t) then Some(t.arg) else before)
  {
    var s := [t] + ts;
    if |ts| > 0 {
      assert s[|s| - 1] == ts[|ts| - 1];
      assert s[..|s| - 1] == [t] + ts[..|ts| - 1];
      LastUrlCons(t, ts[..|ts| - 1], before);
    }
  }

  /** The url ends up as the last url argument, and stays as it was without one. */
  lemma {:induction false} ScanUrl(rest: seq<string>, c: Cli)
    ensures Scan(rest, c).url == LastUrl(Tokenize(rest), c.url)
    decreases |rest|
  {
    if |rest| == 0 {
    } else if rest[0] == "--bridge" {
      if |rest| > 1 {
        ScanUrl(rest[2..], c.(bridges := c.bridges + [rest[1]]));
        LastUrlCons(BridgeLine(rest[1]), Tokenize(rest[2..]), c.url);
      }
    } else {
      ScanUrl(rest[1..], Apply(c, rest[0]));
      ApplyUrl(c, rest[0]);
      LastUrlCons(Word(rest[0]), Tokenize(rest[1..]), c.url);
    }
  }

  /** An argument that is not an option is always taken as the url. */
  lemma UrlArgument(c: Cli, arg: string)
    requires !IsOption(arg)
    ensures Apply(c, arg) == c.(url := Some(arg))
  {
    if Recognised(arg).Some? {
      RecognisedIsOption(arg);
    }
  }

  lemma ScanWord(rest: seq<string>, c: Cli)
    requires |rest| > 0 && rest[0] != "--bridge"
    ensures Scan(rest, c) == Scan(rest[1..], Apply(c, rest[0]))
  {
  }

  lemma ScanBridge(rest: seq<string>, c: Cli)
    requires |rest| > 1 && rest[0] == "--bridge"
    ensures Scan(rest, c) == Scan(rest[2..], c.(bridges := c.bridges + [rest[1]]))
  {
  }

  lemma NewLoopApplied(c: Cli)
    ensures Apply(c, "--new-loop") == c.(newLoop := true)
  {
    RecognisedIsSpelling("--new-loop", NewLoop);
  }

  lemma UseBridgesApplied(c: Cli)
    ensures Apply(c, "--use-bridges") == c.(useBridges := true)
  {
    RecognisedIsSpelling("--use-bridges", UseBridges);
  }

  /** The first example of the source's tests. */
  lemma CliParsingExample(args: seq<string>)
    requires args == ["forloop", "--new-loop", "https://example.onion"]
    ensures Parsed(args).newLoop && Parsed(args).url == Some("https://example.onion")
  {
    var rest := args[1..];
    var url := "https://example.onion";
    assert rest == ["--new-loop", url] && rest[1..] == [url] && rest[1..][1..] == [];
    var c1 := EmptyCli().(newLoop := true);
    ScanWord(rest, EmptyCli());
    NewLoopApplied(EmptyCli());
    ScanWord(rest[1..], c1);
    UrlArgument(c1, url);
  }

  /** The second example of the source's tests. */
  lemma CliBridgesExample(args: seq<string>)
    requires args == ["forloop", "--use-bridges", "--bridge", "obfs4 192.168.1.1:443"]
    ensures Parsed(args).useBridges && Parsed(args).bridges == ["obfs4 192.168.1.1:443"]
  {
    var line := "obfs4 192.168.1.1:443";
    var rest := args[1..];
    assert rest == ["--use-bridges", "--bridge", line] && rest[1..] == ["--bridge", line] && rest[1..][2..] == [];
    var c1 := EmptyCli().(useBridges := true);
    ScanWord(rest, EmptyCli());
    UseBridgesApplied(EmptyCli());
    ScanBridge(rest[1..], c1);
  }

  /** The line after `--bridge` is taken as it is, even when it spells an option. */
  lemma BridgeLineIsNotAnOption(args: seq<string>)
    requires args == ["forloop", "--bridge", "-n"]
    ensures Parsed(args) == EmptyCli().(bridges := ["-n"])
  {
    var rest := args[1..];
    assert rest == ["--bridge", "-n"] && rest[2..] == [];
    ScanBridge(rest, EmptyCli());
    assert EmptyCli().bridges + ["-n"] == ["-n"];
  }

  // ---------------------------------------------------------------- configuration

  /** `ScreenBucket`. */
  datatype ScreenBucket = ScreenBucket(width: u32, height: u32)

  /** `ForloopConfig`. */
  datatype ForloopConfig = ForloopConfig(
    torSocksPort: u16,
    torControlPort: u16,
    newCircuitPerRequest: bool,
    requestTimeoutSecs: u64,
    timingPrecisionMs: u64,
    screenBucket: ScreenBucket,
    cookiesEnabled: bool,
    localStorageEnabled: bool,
    sessionStorageEnabled: bool,
    indexedDbEnabled: bool,
    diskCacheEnabled: bool,
    serviceWorkersEnabled: bool,
    webrtcEnabled: bool,
    geolocationEnabled: bool,
    sensorsEnabled: bool,
    telemetryEnabled: bool,
    crashReporterEnabled: bool)

  const CHECK_COUNT: nat := 12

  /** Check `k` of `verify_secure`, in its order: the eleven features must be off and
      a new circuit must be used per request. */
  predicate Check(c: ForloopConfig, k: nat)
    requires k < CHECK_COUNT
  {
    match k
    case 0 => !c.cookiesEnabled
    case 1 => !c.localStorageEnabled
    case 2 => !c.sessionStorageEnabled
    case 3 => !c.indexedDbEnabled
    case 4 => !c.diskCacheEnabled
    case 5 => !c.serviceWorkersEnabled
    case 6 => !c.webrtcEnabled
    case 7 => !c.geolocationEnabled
    case 8 => !c.sensorsEnabled
    case 9 => !c.telemetryEnabled
    case 10 => !c.crashReporterEnabled
    case _ => c.newCircuitPerRequest
  }

  /** The panic message of each check. */
  const MESSAGES: seq<string> := [
    "Cookies must be disabled", "Local storage must be disabled", "Session storage must be disabled",
    "IndexedDB must be disabled", "Disk cache must be disabled", "Service workers must be disabled",
    "WebRTC must be disabled", "Geolocation must be disabled", "Sensors must be disabled",
    "Telemetry must be disabled", "Crash reporter must be disabled", "New circuit per request must be enabled"]

  predicate Secure(c: ForloopConfig)
  {
    forall k :: 0 <= k < CHECK_COUNT ==> Check(c, k)
  }

  /** `verify_secure`: `None` when every assertion holds, otherwise the message of
      the panic. */
  function VerifySecure(c: ForloopConfig): (panic: Option<string>)
    ensures panic.Some? ==> panic.value in MESSAGES
  {
    if c.cookiesEnabled then Some("Cookies must be disabled")
    else if c.localStorageEnabled then Some("Local storage must be disabled")
    else if c.sessionStorageEnabled then Some("Session storage must be disabled")
    else if c.indexedDbEnabled then Some("IndexedDB must be disabled")
    else if c.diskCacheEnabled then Some("Disk cache must be disabled")
    else if c.serviceWorkersEnabled then Some("Service workers must be disabled")
    else if c.webrtcEnabled then Some("WebRTC must be disabled")
    else if c.geolocationEnabled then Some("Geolocation must be disabled")
    else if c.sensorsEnabled then Some("Sensors must be disabled")
    else if c.telemetryEnabled then Some("Telemetry must be disabled")
    else if c.crashReporterEnabled then Some("Crash reporter must be disabled")
    else if !c.newCircuitPerRequest then Some("New circuit per request must be enabled")
    else None
  }

  /** The index of the first check that fails. */
  function FirstFailing(c: ForloopConfig, k: nat): (f: nat)
    requires k <= CHECK_COUNT
    ensures k <= f <= CHECK_COUNT
    ensures forall j :: k <= j < f ==> Check(c, j)
    ensures f < CHECK_COUNT ==> !Check(c, f)
    decreases CHECK_COUNT - k
  {
    if k == CHECK_COUNT || !Check(c, k) then k else FirstFailing(c, k + 1)
  }

  /** `verify_secure` passes exactly on secure configurations, and otherwise panics
      with the message of the first check that fails. */
  lemma VerifySecureIsFirstFailure(c: ForloopConfig)
    ensures VerifySecure(c).None? <==> Secure(c)
    ensures VerifySecure(c).Some? ==> VerifySecure(c) == Some(MESSAGES[FirstFailing(c, 0)])
  {
    var f := FirstFailing(c, 0);
    if f == CHECK_COUNT {
      assert Secure(c);
    } else {
      assert !Check(c, f);
    }
  }

  /** The example of the source's tests: cookies switched on are refused first. */
  lemma CookiesRefused(c: ForloopConfig)
    requires c.cookiesEnabled
    ensures VerifySecure(c) == Some("Cookies must be disabled")
  {
  }

  /** `ForloopConfig::default`. */
  function DefaultConfig(): (c: ForloopConfig)
    ensures Secure(c)
  {
    ForloopConfig(9150, 9151, true, 60, 100, ScreenBucket(1920, 1080),
                  false, false, false, false, false, false, false, false, false, false, false)
  }

  /** `ForloopConfig::get`: the compiled-in singleton. The source writes this
      literal a second time rather than calling `default`, so the model keeps the
      copy too; `DefaultIsGet` is then a real check that the two still agree. */
  function GetConfig(): (c: ForloopConfig)
    ensures Secure(c)
  {
    ForloopConfig(9150, 9151, true, 60, 100, ScreenBucket(1920, 1080),
                  false, false, false, false, false, false, false, false, false, false, false)
  }

  /** The two copies agree field by field, and both pass the check. */
  lemma DefaultIsGet()
    ensures DefaultConfig() == GetConfig()
    ensures VerifySecure(DefaultConfig()) == None && VerifySecure(GetConfig()) == None
  {
    VerifySecureIsFirstFailure(DefaultConfig());
  }
}
