/** The error type of the network layer and the header pair it passes around. */
module NetworkErrors {

  /** `NetworkError`: every variant but `Timeout` carries a message. */
  datatype NetworkError =
    | TorConnectionFailed(msg: string)
    | CircuitCreationFailed(msg: string)
    | RequestFailed(msg: string)
    | Timeout
    | TlsError(msg: string)
    | DnsError(msg: string)
    | InvalidUrl(msg: string)
    | ProtocolNotSupported(msg: string)

  /** An HTTP header field as the source stores it: `(name, value)`. */
  type Header = (string, string)
}
