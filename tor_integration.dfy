/** The embedded-Tor controller and the torrc text rendered from `TorConfig`. */
module TorIntegration {
  import opened Ints
  import opened Wrappers
  import opened Text
  import opened NetworkErrors
  import opened Lines

  // ---------------------------------------------------------------- circuit ids

  const CIRCUIT_ID_PREFIX: string := "circuit_"

  /** `generate_circuit_id`, with the clock reading (nanoseconds since the epoch)
      as a parameter: the prefix followed by at least 16 lower-case hex digits. */
  function GenerateCircuitId(nanos: nat): (id: string)
    ensures StartsWith(id, CIRCUIT_ID_PREFIX)
    ensures |id| >= |CIRCUIT_ID_PREFIX| + 16 && AllHex(id[|CIRCUIT_ID_PREFIX|..])
  {
    var id := CIRCUIT_ID_PREFIX + PaddedHex(nanos, 16);
    assert id[..|CIRCUIT_ID_PREFIX|] == CIRCUIT_ID_PREFIX;
    assert id[|CIRCUIT_ID_PREFIX|..] == PaddedHex(nanos, 16);
    id
  }

  /** Two different clock readings give two different ids: the id encodes the reading. */
  lemma CircuitIdsDistinct(a: nat, b: nat)
    requires a != b
    ensures GenerateCircuitId(a) != GenerateCircuitId(b)
  {
    var ia, ib := GenerateCircuitId(a), GenerateCircuitId(b);
    var n := |CIRCUIT_ID_PREFIX|;
    PaddedHexValue(a, 16);
    PaddedHexValue(b, 16);
    assert ia[n..] == PaddedHex(a, 16);
    assert ib[n..] == PaddedHex(b, 16);
  }

  // ---------------------------------------------------------------- controller

  /** `TorController`. The control-port exchange is not modelled; what the model
      keeps is the list of circuit ids the controller was asked to close. */
  class TorController {
    const socksPort: u16
    const controlPort: u16
    var closeRequests: seq<string>

    constructor (socksPort: u16, controlPort: u16)
      ensures this.socksPort == socksPort && this.controlPort == controlPort
      ensures closeRequests == []
    {
      this.socksPort := socksPort;
      this.controlPort := controlPort;
      closeRequests := [];
    }

    /** `socks_addr`: the loopback address with the SOCKS port. */
    function SocksAddr(): (addr: string)
      ensures StartsWith(addr, "127.0.0.1:")
      ensures ParseU16(addr[|"127.0.0.1:"|..]) == Some(socksPort as nat)
    {
      var addr := "127.0.0.1:" + Decimal(socksPort);
      assert addr[|"127.0.0.1:"|..] == Decimal(socksPort);
      DecimalParsesBack(socksPort);
      addr
    }

    /** `new_circuit`: always succeeds with a fresh id built from the clock. */
    method NewCircuit(nanos: nat) returns (r: Result<string, NetworkError>)
      ensures r == Success(GenerateCircuitId(nanos))
    {
      r := Success(GenerateCircuitId(nanos));
    }

    /** `close_circuit`: records the request and always succeeds. */
    method CloseCircuit(id: string) returns (r: Result<(), NetworkError>)
      modifies this
      ensures closeRequests == old(closeRequests) + [id]
      ensures r == Success(())
    {
      closeRequests := closeRequests + [id];
      r := Success(());
    }
  }

  // ---------------------------------------------------------------- torrc

  datatype TorConfig = TorConfig(
    dataDir: string,
    socksPort: u16,
    controlPort: u16,
    useBridges: bool,
    bridges: seq<string>,
    disableDisk: bool,
    strictExit: bool)

  /** `TorConfig::default`: RAM-backed data directory, ports 9150/9151, no bridges,
      strict exit policy. */
  function DefaultTorConfig(): (c: TorConfig)
    ensures c.socksPort == 9150 && c.controlPort == 9151
    ensures !c.useBridges && c.bridges == [] && c.disableDisk && c.strictExit
    ensures StartsWith(c.dataDir, "/dev/shm/")
  {
    TorConfig("/dev/shm/forloop-tor", 9150, 9151, false, [], true, true)
  }

  function BridgeLines(bridges: seq<string>): (ls: seq<string>)
    ensures |ls| == |bridges|
  {
    seq(|bridges|, i requires 0 <= i < |bridges| => "Bridge " + bridges[i] + "\n")
  }

  function FixedLines(c: TorConfig): seq<string>
  {
    ["DataDirectory " + c.dataDir + "\n",
     "SocksPort " + Decimal(c.socksPort) + "\n",
     "ControlPort " + Decimal(c.controlPort) + "\n",
     "CookieAuthentication 1\n",
     "AvoidDiskWrites 1\n",
     "DisableDebuggerAttachment 1\n",
     "DisableNetwork 0\n"]
  }

  function ExitLines(c: TorConfig): seq<string>
  {
    if c.strictExit then ["ExitRelay 0\n", "StrictNodes 1\n"] else []
  }

  function BridgeSection(c: TorConfig): seq<string>
  {
    if c.useBridges then ["UseBridges 1\n"] + BridgeLines(c.bridges) else []
  }

  const TAIL_LINES: seq<string> := ["SafeLogging 1\n", "ClientOnly 1\n"]

  /** The torrc lines `to_torrc` emits, in order, each with its line feed. */
  function TorrcLines(c: TorConfig): seq<string>
  {
    FixedLines(c) + ExitLines(c) + BridgeSection(c) + TAIL_LINES
  }

  ghost function PushBridges(t: string, bridges: seq<string>): string
  {
    if |bridges| == 0 then t else PushBridges(t, bridges[..|bridges| - 1]) + ("Bridge " + bridges[|bridges| - 1] + "\n")
  }

  ghost function PushExit(t: string, c: TorConfig): string
  {
    if c.strictExit then t + "ExitRelay 0\n" + "StrictNodes 1\n" else t
  }

  ghost function PushBridgeSection(t: string, c: TorConfig): string
  {
    if c.useBridges then PushBridges(t + "UseBridges 1\n", c.bridges) else t
  }

  ghost function TorrcText(c: TorConfig): string
  {
    var fixed := ""
      + ("DataDirectory " + c.dataDir + "\n")
      + ("SocksPort " + Decimal(c.socksPort) + "\n")
      + ("ControlPort " + Decimal(c.controlPort) + "\n")
      + "CookieAuthentication 1\n"
      + "AvoidDiskWrites 1\n"
      + "DisableDebuggerAttachment 1\n"
      + "DisableNetwork 0\n";
    PushBridgeSection(PushExit(fixed, c), c) + "SafeLogging 1\n" + "ClientOnly 1\n"
  }

  lemma {:induction false} PushBridgesRender(t: string, bs: seq<string>)
    ensures PushBridges(t, bs) == RenderOnto(t, BridgeLines(bs))
  {
    if |bs| > 0 {
      var init := bs[..|bs| - 1];
      PushBridgesRender(t, init);
      assert BridgeLines(bs) == BridgeLines(init) + ["Bridge " + bs[|bs| - 1] + "\n"];
      RenderOntoSnoc(t, BridgeLines(init), "Bridge " + bs[|bs| - 1] + "\n");
    }
  }

  lemma FixedRender(c: TorConfig)
    ensures RenderOnto("", FixedLines(c)) ==
      ""
      + ("DataDirectory " + c.dataDir + "\n")
      + ("SocksPort " + Decimal(c.socksPort) + "\n")
      + ("ControlPort " + Decimal(c.controlPort) + "\n")
      + "CookieAuthentication 1\n"
      + "AvoidDiskWrites 1\n"
      + "DisableDebuggerAttachment 1\n"
      + "DisableNetwork 0\n"
  {
    var f := FixedLines(c);
    assert f[..0] == [];
    assert f[..1] == f[..0] + [f[0]];
    RenderOntoSnoc("", f[..0], f[0]);
    assert f[..2] == f[..1] + [f[1]];
    RenderOntoSnoc("", f[..1], f[1]);
    assert f[..3] == f[..2] + [f[2]];
    RenderOntoSnoc("", f[..2], f[2]);
    assert f[..4] == f[..3] + [f[3]];
    RenderOntoSnoc("", f[..3], f[3]);
    assert f[..5] == f[..4] + [f[4]];
    RenderOntoSnoc("", f[..4], f[4]);
    assert f[..6] == f[..5] + [f[5]];
    RenderOntoSnoc("", f[..5], f[5]);
    assert f[..7] == f[..6] + [f[6]];
    RenderOntoSnoc("", f[..6], f[6]);
    assert f[..7] == f;
  }

  lemma TorrcTextLines(c: TorConfig)
    ensures TorrcText(c) == Render(TorrcLines(c))
  {
    var t0 := RenderOnto("", FixedLines(c));
    FixedRender(c);
    RenderOntoAppend("", FixedLines(c), ExitLines(c));
    var t1 := RenderOnto(t0, ExitLines(c));
    if c.strictExit {
      RenderOntoSnoc(t0, [], "ExitRelay 0\n");
      RenderOntoSnoc(t0, ["ExitRelay 0\n"], "StrictNodes 1\n");
    }
    assert t1 == PushExit(t0, c);
    RenderOntoAppend("", FixedLines(c) + ExitLines(c), BridgeSection(c));
    var t2 := RenderOnto(t1, BridgeSection(c));
    if c.useBridges {
      RenderOntoAppend(t1, ["UseBridges 1\n"], BridgeLines(c.bridges));
      RenderOntoSnoc(t1, [], "UseBridges 1\n");
      PushBridgesRender(t1 + "UseBridges 1\n", c.bridges);
    }
    assert t2 == PushBridgeSection(t1, c);
    RenderOntoAppend("", FixedLines(c) + ExitLines(c) + BridgeSection(c), TAIL_LINES);
    RenderOntoSnoc(t2, [], "SafeLogging 1\n");
    RenderOntoSnoc(t2, ["SafeLogging 1\n"], "ClientOnly 1\n");
  }

  /** `to_torrc`: appends one formatted line at a time, looping over the bridges. */
  method ToTorrc(c: TorConfig) returns (text: string)
    ensures text == Render(TorrcLines(c))
  {
    text := "";
    text := text + ("DataDirectory " + c.dataDir + "\n");
    text := text + ("SocksPort " + Decimal(c.socksPort) + "\n");
    text := text + ("ControlPort " + Decimal(c.controlPort) + "\n");
    text := text + "CookieAuthentication 1\n";
    text := text + "AvoidDiskWrites 1\n";
    text := text + "DisableDebuggerAttachment 1\n";
    text := text + "DisableNetwork 0\n";
    ghost var t0 := text;
    if c.strictExit {
      text := text + "ExitRelay 0\n";
      text := text + "StrictNodes 1\n";
    }
    assert text == PushExit(t0, c);
    ghost var t1 := text;
    if c.useBridges {
      text := text + "UseBridges 1\n";
      var i := 0;
      while i < |c.bridges|
        invariant 0 <= i <= |c.bridges|
        invariant text == PushBridges(t1 + "UseBridges 1\n", c.bridges[..i])
      {
        assert c.bridges[..i + 1][..i] == c.bridges[..i];
        text := text + ("Bridge " + c.bridges[i] + "\n");
        i := i + 1;
      }
      assert c.bridges[..i] == c.bridges;
    }
    assert text == PushBridgeSection(t1, c);
    text := text + "SafeLogging 1\n";
    text := text + "ClientOnly 1\n";
    TorrcTextLines(c);
  }

  // ---------------------------------------------------------------- torrc properties

  /** The text opens with the data directory line; the SocksPort and ControlPort lines
      follow, and their values read back as the configured ports. */
  lemma TorrcStartsWithPorts(c: TorConfig)
    ensures StartsWith(Render(TorrcLines(c)), "DataDirectory " + c.dataDir + "\n")
    ensures var l := TorrcLines(c)[1];
      StartsWith(l, "SocksPort ") && EndsWith(l, "\n") && ParseU16(l[10..|l| - 1]) == Some(c.socksPort as nat)
    ensures var l := TorrcLines(c)[2];
      StartsWith(l, "ControlPort ") && EndsWith(l, "\n") && ParseU16(l[12..|l| - 1]) == Some(c.controlPort as nat)
  {
    var ls := TorrcLines(c);
    assert ls[1][10..|ls[1]| - 1] == Decimal(c.socksPort);
    assert ls[2][12..|ls[2]| - 1] == Decimal(c.controlPort);
    DecimalParsesBack(c.socksPort);
    DecimalParsesBack(c.controlPort);
    RenderPrefix("", ls, 1);
    assert ls[..1] == [] + [ls[0]];
    RenderOntoSnoc("", [], ls[0]);
  }

  /** The hardening directives are present whatever the configuration, and the
      text always ends with `ClientOnly 1`. */
  lemma TorrcAlwaysHardened(c: TorConfig)
    ensures Contains(Render(TorrcLines(c)), "CookieAuthentication 1\n")
    ensures Contains(Render(TorrcLines(c)), "AvoidDiskWrites 1\n")
    ensures Contains(Render(TorrcLines(c)), "DisableDebuggerAttachment 1\n")
    ensures Contains(Render(TorrcLines(c)), "SafeLogging 1\n")
    ensures EndsWith(Render(TorrcLines(c)), "ClientOnly 1\n")
  {
    var ls := TorrcLines(c);
    RenderContainsLine("", ls, 3);
    RenderContainsLine("", ls, 4);
    RenderContainsLine("", ls, 5);
    RenderContainsLine("", ls, |ls| - 2);
    assert ls[..|ls| - 1] + ["ClientOnly 1\n"] == ls;
    RenderOntoSnoc("", ls[..|ls| - 1], "ClientOnly 1\n");
  }

  predicate IsExitLine(l: string)
  {
    l == "ExitRelay 0\n" || l == "StrictNodes 1\n"
  }

  lemma FixedLinesNotExit(c: TorConfig)
    ensures forall l :: l in FixedLines(c) ==> !IsExitLine(l) && !StartsWith(l, "Bridge ")
  {
    var f := FixedLines(c);
    assert f[0][0] == 'D' && f[1][0] == 'S' && f[1][1] == 'o' && f[2][0] == 'C';
    forall l | l in f
      ensures !IsExitLine(l) && !StartsWith(l, "Bridge ")
    {
      StartsWithFirst(l, "Bridge ");
    }
  }

  lemma BridgeSectionNotExit(c: TorConfig)
    ensures forall l :: l in BridgeSection(c) ==> !IsExitLine(l)
  {
    forall l | l in BridgeSection(c)
      ensures !IsExitLine(l)
    {
      if l != "UseBridges 1\n" {
        var i :| 0 <= i < |c.bridges| && BridgeLines(c.bridges)[i] == l;
        assert l[0] == 'B';
      }
    }
  }

  /** `ExitRelay 0` and `StrictNodes 1` are emitted exactly when `strict_exit` is set. */
  lemma TorrcStrictExitIff(c: TorConfig)
    ensures "ExitRelay 0\n" in TorrcLines(c) <==> c.strictExit
    ensures "StrictNodes 1\n" in TorrcLines(c) <==> c.strictExit
  {
    var ls := TorrcLines(c);
    if c.strictExit {
      assert ls[7] == "ExitRelay 0\n" && ls[8] == "StrictNodes 1\n";
    } else {
      FixedLinesNotExit(c);
      BridgeSectionNotExit(c);
      assert ls == FixedLines(c) + BridgeSection(c) + TAIL_LINES;
    }
  }

  /** `UseBridges 1` is emitted exactly when `use_bridges` is set, and then one
      `Bridge` line per configured bridge follows it, in order. Without
      `use_bridges` no bridge line is emitted at all. */
  lemma TorrcBridgesIff(c: TorConfig)
    ensures "UseBridges 1\n" in TorrcLines(c) <==> c.useBridges
    ensures c.useBridges ==>
      var h := |FixedLines(c) + ExitLines(c)|;
      TorrcLines(c)[h] == "UseBridges 1\n" &&
      TorrcLines(c)[h + 1..h + 1 + |c.bridges|] == BridgeLines(c.bridges)
    ensures !c.useBridges ==> forall l :: l in TorrcLines(c) ==> !StartsWith(l, "Bridge ")
  {
    if c.useBridges {
      TorrcWithBridges(c);
    } else {
      TorrcWithoutBridges(c);
    }
  }

  lemma TorrcWithBridges(c: TorConfig)
    requires c.useBridges
    ensures var h := |FixedLines(c) + ExitLines(c)|;
      TorrcLines(c)[h] == "UseBridges 1\n" &&
      TorrcLines(c)[h + 1..h + 1 + |c.bridges|] == BridgeLines(c.bridges)
  {
    var ls := TorrcLines(c);
    var h := |FixedLines(c) + ExitLines(c)|;
    assert ls[h] == "UseBridges 1\n";
    assert ls[h + 1..h + 1 + |c.bridges|] == BridgeLines(c.bridges);
  }

  lemma TorrcWithoutBridges(c: TorConfig)
    requires !c.useBridges
    ensures forall l :: l in TorrcLines(c) ==> !StartsWith(l, "Bridge ") && l != "UseBridges 1\n"
  {
    FixedLinesNotExit(c);
    assert TorrcLines(c) == FixedLines(c) + ExitLines(c) + TAIL_LINES;
    forall l | l in ExitLines(c) + TAIL_LINES
      ensures !StartsWith(l, "Bridge ") && l != "UseBridges 1\n"
    {
      StartsWithFirst(l, "Bridge ");
    }
  }

  /** The default configuration renders `SocksPort 9150`, `AvoidDiskWrites 1` and
      `ExitRelay 0`. */
  lemma DefaultTorrc()
    ensures Contains(Render(TorrcLines(DefaultTorConfig())), "SocksPort 9150\n")
    ensures Contains(Render(TorrcLines(DefaultTorConfig())), "AvoidDiskWrites 1\n")
    ensures Contains(Render(TorrcLines(DefaultTorConfig())), "ExitRelay 0\n")
  {
    var c := DefaultTorConfig();
    var ls := TorrcLines(c);
    DefaultSocksDigits();
    assert ls[1] == "SocksPort 9150\n";
    RenderContainsLine("", ls, 1);
    RenderContainsLine("", ls, 4);
    RenderContainsLine("", ls, 7);
  }

  lemma DefaultSocksDigits()
    ensures Decimal(9150) == "9150"
  {
    assert Decimal(9) == "9";
    assert Decimal(91) == "91";
    assert Decimal(915) == "915";
  }
}
