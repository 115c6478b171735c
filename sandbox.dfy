/** Process sandboxing: the four preset configurations, and the framing of the IPC
    messages the processes exchange over a sequenced-packet socket. The system calls
    themselves are not modelled; what `send` hands to the socket and what `recv`
    decodes from the bytes the socket delivered are. */
module Sandbox {
  import opened Ints
  import opened Wrappers
  import opened Bytes

  // ---------------------------------------------------------------- presets

  datatype ProcessType = Ui | Broker | Network | Content

  datatype SeccompPolicy = NoFilter | ContentFilter | NetworkFilter | BrokerFilter

  /** `SandboxConfig`. */
  datatype SandboxConfig = SandboxConfig(
    processType: ProcessType,
    allowNetwork: bool,
    allowFsRead: bool,
    allowFsWrite: bool,
    allowedPaths: seq<string>,
    useUserNs: bool,
    useNetNs: bool,
    usePidNs: bool,
    seccompPolicy: SeccompPolicy)

  /** `SandboxConfig::ui_process`. */
  function UiProcess(): SandboxConfig
  {
    SandboxConfig(Ui, false, true, false, ["/usr/share/fonts", "/usr/share/icons"], false, false, false, NoFilter)
  }

  /** `SandboxConfig::broker_process`. */
  function BrokerProcess(): SandboxConfig
  {
    SandboxConfig(Broker, false, false, false, [], true, true, true, BrokerFilter)
  }

  /** `SandboxConfig::network_process`: the network namespace is shared, so the
      process can reach the network. */
  function NetworkProcess(): SandboxConfig
  {
    SandboxConfig(Network, true, false, false, [], true, false, true, NetworkFilter)
  }

  /** `SandboxConfig::content_process`. */
  function ContentProcess(): SandboxConfig
  {
    SandboxConfig(Content, false, false, false, [], true, true, true, ContentFilter)
  }

  /** The preset of each kind of process. */
  function Preset(p: ProcessType): (c: SandboxConfig)
    ensures c.processType == p
  {
    match p
    case Ui => UiProcess()
    case Broker => BrokerProcess()
    case Network => NetworkProcess()
    case Content => ContentProcess()
  }

  /** No filesystem access at all, and every namespace of its own. */
  predicate FullyIsolated(c: SandboxConfig)
  {
    && !c.allowFsRead && !c.allowFsWrite && c.allowedPaths == []
    && c.useUserNs && c.useNetNs && c.usePidNs
  }

  /** Each preset is for its own kind of process, and the network process is the
      only one allowed the network. */
  lemma OnlyNetworkProcessHasNetwork(p: ProcessType)
    ensures Preset(p).processType == p
    ensures Preset(p).allowNetwork <==> p == Network
  {
  }

  /** The broker and content processes are the fully isolated ones; no process but
      the UI may read files, and none may write them. */
  lemma IsolatedPresets(p: ProcessType)
    ensures FullyIsolated(Preset(p)) <==> p == Broker || p == Content
    ensures Preset(p).allowFsRead <==> p == Ui
    ensures !Preset(p).allowFsWrite
  {
  }

  /** Only the UI process runs without a seccomp filter. */
  lemma SeccompPresets(p: ProcessType)
    ensures Preset(p).seccompPolicy == NoFilter <==> p == Ui
  {
  }

  // ---------------------------------------------------------------- IPC messages

  datatype IpcMessageType =
    | NetworkRequest | NetworkResponse | FingerprintIdentity | RenderRequest
    | RenderComplete | Error | Shutdown

  /** `msg_type as u32`: the declaration index. */
  function Code(t: IpcMessageType): (c: u32)
    ensures c < 7
  {
    match t
    case NetworkRequest => 0
    case NetworkResponse => 1
    case FingerprintIdentity => 2
    case RenderRequest => 3
    case RenderComplete => 4
    case Error => 5
    case Shutdown => 6
  }

  /** The `match` of `recv` on the type code: an unknown code reads as `Error`. */
  function FromCode(code: nat): (t: IpcMessageType)
    ensures code >= 7 ==> t == Error
  {
    match code
    case 0 => NetworkRequest
    case 1 => NetworkResponse
    case 2 => FingerprintIdentity
    case 3 => RenderRequest
    case 4 => RenderComplete
    case 5 => Error
    case 6 => Shutdown
    case _ => Error
  }

  /** Every type reads back from its code, so no two types share a code. */
  lemma CodeRoundTrip(t: IpcMessageType)
    ensures FromCode(Code(t)) == t
  {
  }

  lemma CodeInjective(s: IpcMessageType, t: IpcMessageType)
    requires Code(s) == Code(t)
    ensures s == t
  {
    CodeRoundTrip(s);
    CodeRoundTrip(t);
  }

  /** `IpcMessage`. */
  datatype IpcMessage = IpcMessage(msgType: IpcMessageType, payload: seq<byte>, requestId: u64)

  const HEADER_LEN: nat := 16
  /** The size of the buffer `recv` reads into. */
  const RECV_BUFFER: nat := 65536

  /** The frame `send` hands to the socket: the type code (4 bytes), the request id
      (8 bytes) and the payload length (4 bytes, truncated to 32 bits by the cast),
      all little-endian, then the payload. */
  function Frame(msg: IpcMessage): (f: seq<byte>)
    ensures |f| == HEADER_LEN + |msg.payload|
  {
    LE(Code(msg.msgType), 4) + LE(msg.requestId, 8) + LE(|msg.payload| % U32_LIMIT, 4) + msg.payload
  }

  /** The serialisation of `IpcChannel::send`: four appends to an empty buffer. */
  method Send(msg: IpcMessage) returns (buffer: seq<byte>)
    ensures buffer == Frame(msg)
  {
    buffer := [];
    buffer := buffer + LE(Code(msg.msgType), 4);
    buffer := buffer + LE(msg.requestId, 8);
    buffer := buffer + LE(|msg.payload| % U32_LIMIT, 4);
    buffer := buffer + msg.payload;
  }

  datatype IpcError = InvalidData(message: string)

  lemma PowersOf256()
    ensures Pow256(4) == U32_LIMIT && Pow256(8) == U64_MAX + 1
  {
    assert Pow256(1) == 0x100;
    assert Pow256(2) == 0x1_0000;
    assert Pow256(3) == 0x100_0000;
    assert Pow256(4) == 0x1_0000_0000;
    assert Pow256(5) == 0x100_0000_0000;
    assert Pow256(6) == 0x1_0000_0000_0000;
    assert Pow256(7) == 0x100_0000_0000_0000;
  }

  function Zeros(n: nat): (z: seq<byte>)
    ensures |z| == n && forall i :: 0 <= i < n ==> z[i] == 0
  {
    seq(n, _ => 0)
  }

  /** The payload length a frame's header declares. */
  function DeclaredLength(received: seq<byte>): nat
    requires |received| >= HEADER_LEN
  {
    FromLE(received[12..16])
  }

  /** The decoding of `IpcChannel::recv`, as written, from the `received` bytes the
      socket delivered into the zeroed buffer: frames shorter than the header are
      refused, and the payload is read from the buffer with the length the header
      declares, not the length received. A declared length that runs past the buffer
      makes the slice panic; that is excluded here. */
  function Recv(received: seq<byte>): (r: Result<IpcMessage, IpcError>)
    requires |received| <= RECV_BUFFER
    requires |received| >= HEADER_LEN ==> DeclaredLength(received) <= RECV_BUFFER - HEADER_LEN
    ensures r.Failure? <==> |received| < HEADER_LEN
    ensures r.Failure? ==> r.error == InvalidData("Message too short")
    ensures r.Success? ==> |r.value.payload| == DeclaredLength(received)
  {
    if |received| < HEADER_LEN then Failure(InvalidData("Message too short"))
    else
      var buffer := received + Zeros(RECV_BUFFER - |received|);
      var n := FromLE(buffer[12..16]);
      PowersOf256();
      assert buffer[12..16] == received[12..16];
      Success(IpcMessage(FromCode(FromLE(buffer[0..4])), buffer[16..16 + n], FromLE(buffer[4..12])))
  }

  /** `recv` with the declared length checked against the bytes received: a frame
      whose payload would run past what was received is refused. */
  function RecvChecked(received: seq<byte>): (r: Result<IpcMessage, IpcError>)
    ensures |received| < HEADER_LEN ==> r == Failure(InvalidData("Message too short"))
    ensures r.Success? <==> |received| >= HEADER_LEN && HEADER_LEN + DeclaredLength(received) <= |received|
    ensures r.Success? ==> |r.value.payload| == DeclaredLength(received)
    ensures r.Success? ==> r.value.payload == received[HEADER_LEN..HEADER_LEN + |r.value.payload|]
  {
    if |received| < HEADER_LEN then Failure(InvalidData("Message too short"))
    else
      var n := FromLE(received[12..16]);
      if HEADER_LEN + n > |received| then Failure(InvalidData("Payload length exceeds message"))
      else
        PowersOf256();
        Success(IpcMessage(FromCode(FromLE(received[0..4])), received[16..16 + n], FromLE(received[4..12])))
  }

  /** On every frame whose declared payload was received, the two decodings agree. */
  lemma RecvAgreesWhenComplete(received: seq<byte>)
    requires HEADER_LEN <= |received| <= RECV_BUFFER
    requires HEADER_LEN + DeclaredLength(received) <= |received|
    ensures Recv(received) == RecvChecked(received)
  {
    var buffer := received + Zeros(RECV_BUFFER - |received|);
    var n := DeclaredLength(received);
    assert buffer[12..16] == received[12..16];
    assert buffer[0..4] == received[0..4];
    assert buffer[4..12] == received[4..12];
    assert buffer[16..16 + n] == received[16..16 + n];
  }

  /** The three header fields of a frame read back as the message's. */
  lemma FrameFields(msg: IpcMessage)
    requires |msg.payload| < U32_LIMIT
    ensures var f := Frame(msg);
      && f[0..4] == LE(Code(msg.msgType), 4)
      && f[4..12] == LE(msg.requestId, 8)
      && f[12..16] == LE(|msg.payload|, 4)
      && f[16..] == msg.payload
  {
    var a, b, c := LE(Code(msg.msgType), 4), LE(msg.requestId, 8), LE(|msg.payload|, 4);
    assert |msg.payload| % U32_LIMIT == |msg.payload|;
    assert Frame(msg) == ((a + b) + c) + msg.payload;
    SliceOfFour(a, b, c, msg.payload);
  }

  /** The four parts of a concatenation are its slices at the parts' bounds. */
  lemma SliceOfFour(a: seq<byte>, b: seq<byte>, c: seq<byte>, d: seq<byte>)
    ensures var s := ((a + b) + c) + d;
      && s[..|a|] == a
      && s[|a|..|a| + |b|] == b
      && s[|a| + |b|..|a| + |b| + |c|] == c
      && s[|a| + |b| + |c|..] == d
  {
    var ab := a + b;
    var abc := ab + c;
    assert abc[..|a|] == a;
    assert abc[|a|..|a| + |b|] == b;
  }

  /** Decoding a frame gives back the message sent, whenever the frame fits the
      receive buffer; the checked decoding accepts it too. */
  lemma RecvFrameRoundTrip(msg: IpcMessage)
    requires HEADER_LEN + |msg.payload| <= RECV_BUFFER
    ensures DeclaredLength(Frame(msg)) == |msg.payload|
    ensures Recv(Frame(msg)) == Success(msg)
    ensures RecvChecked(Frame(msg)) == Success(msg)
  {
    var f := Frame(msg);
    FrameFields(msg);
    PowersOf256();
    LERoundTrip(Code(msg.msgType), 4);
    LERoundTrip(msg.requestId, 8);
    LERoundTrip(|msg.payload|, 4);
    CodeRoundTrip(msg.msgType);
    assert f[16..16 + |msg.payload|] == msg.payload;
    RecvAgreesWhenComplete(f);
  }

  /** The example of the source's tests. */
  lemma RecvExample()
    ensures DeclaredLength(Frame(IpcMessage(NetworkRequest, [0x74, 0x65, 0x73, 0x74], 12345))) == 4
    ensures Recv(Frame(IpcMessage(NetworkRequest, [0x74, 0x65, 0x73, 0x74], 12345)))
         == Success(IpcMessage(NetworkRequest, [0x74, 0x65, 0x73, 0x74], 12345))
  {
    RecvFrameRoundTrip(IpcMessage(NetworkRequest, [0x74, 0x65, 0x73, 0x74], 12345));
  }

  /** A bare header that declares four payload bytes. */
  function ShortFrame(): (f: seq<byte>)
    ensures |f| == HEADER_LEN
  {
    LE(0, 4) + LE(7, 8) + LE(4, 4)
  }

  /** As written, `recv` accepts a header that declares a payload it never received
      and hands out four zero bytes from its buffer as the payload. */
  lemma RecvInventsPayload()
    ensures DeclaredLength(ShortFrame()) == 4
    ensures Recv(ShortFrame()) == Success(IpcMessage(NetworkRequest, [0, 0, 0, 0], 7))
    ensures RecvChecked(ShortFrame()).Failure?
  {
    ShortFrameFields();
    RecvOfRequestHeader(ShortFrame());
    RecvCheckedRefusesBareHeader(ShortFrame());
  }

  /** A bare header for request 7 that declares four payload bytes decodes to a
      request with four zero bytes. */
  lemma RecvOfRequestHeader(f: seq<byte>)
    requires |f| == HEADER_LEN
    requires FromLE(f[0..4]) == 0 && FromLE(f[4..12]) == 7 && DeclaredLength(f) == 4
    ensures Recv(f) == Success(IpcMessage(NetworkRequest, [0, 0, 0, 0], 7))
  {
    RecvOfBareHeader(f);
    assert Zeros(4) == [0, 0, 0, 0];
  }

  /** The checked decoding refuses a bare header that declares a payload. */
  lemma RecvCheckedRefusesBareHeader(received: seq<byte>)
    requires |received| == HEADER_LEN && DeclaredLength(received) > 0
    ensures RecvChecked(received).Failure?
  {
  }

  /** The three header fields of the bare header. */
  lemma ShortFrameFields()
    ensures FromLE(ShortFrame()[0..4]) == 0
    ensures FromLE(ShortFrame()[4..12]) == 7
    ensures FromLE(ShortFrame()[12..16]) == 4
  {
    var f := ShortFrame();
    assert f[0..4] == LE(0, 4) && f[4..12] == LE(7, 8) && f[12..16] == LE(4, 4);
    PowersOf256();
    LERoundTrip(0, 4);
    LERoundTrip(7, 8);
    LERoundTrip(4, 4);
  }

  /** A bare header gets, as its payload, as many zero bytes of the buffer as it
      declares. */
  lemma RecvOfBareHeader(received: seq<byte>)
    requires |received| == HEADER_LEN && DeclaredLength(received) <= RECV_BUFFER - HEADER_LEN
    ensures FromLE(received[4..12]) <= U64_MAX
    ensures Recv(received) == Success(IpcMessage(FromCode(FromLE(received[0..4])),
      Zeros(DeclaredLength(received)), FromLE(received[4..12])))
  {
    PowersOf256();
    var buffer := received + Zeros(RECV_BUFFER - |received|);
    var n := DeclaredLength(received);
    assert buffer[12..16] == received[12..16];
    assert buffer[0..4] == received[0..4];
    assert buffer[4..12] == received[4..12];
    assert buffer[16..16 + n] == Zeros(n);
  }
}
