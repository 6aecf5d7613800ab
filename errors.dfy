/**
 * The error enums of the networking crate, their `Display` messages
 * (the `#[error(...)]` strings) and their `source()` chains, and the
 * conversion `From<NetworkError> for String` that commands use to report
 * a failure.
 */
module Errors {
  import FdropCommon

  datatype IoErrorKind = InvalidInput | UnexpectedEof | BrokenPipe

  /** A `std::io::Error` built from a kind and a message; it has no source of its own. */
  datatype IoError = IoError(kind: IoErrorKind, message: string)

  datatype CommunicationError =
    | WriteError(io: IoError)
    | ReadError(io: IoError)
    | DecodeError
    | NoReachableAddress
    | Unauthenticated
    | PeerNotFound
    | Io(io: IoError)

  /** The mDNS library's errors are kept only as their messages. */
  datatype DiscoveryError =
    | ServiceError(mdns: string)
    | ServiceDaemonError(mdns: string)
    | ServiceRegisterError(mdns: string)
    | BrowseError(mdns: string)
    | HostnameError(io: IoError)
    | ShutdownError(mdns: string)
    | TauriError(message: string, causes: seq<string>)

  datatype NetworkError = Discovery(discovery: DiscoveryError) | Communication(communication: CommunicationError)

  function CommunicationMessage(e: CommunicationError): string {
    match e
    case WriteError(_) => "failed to write to the socket"
    case ReadError(_) => "failed to read to the socket"
    case DecodeError => "failed to decode peer message"
    case NoReachableAddress => "no reachable address for the peer"
    case Unauthenticated => "peer sent unexpected messages before linking"
    case PeerNotFound => "peer not found by discovery service"
    case Io(_) => "IO error"
  }

  /** Only `Io` is `#[from]`, so only it has a source; the io error's own chain ends there. */
  function CommunicationSources(e: CommunicationError): seq<string> {
    if e.Io? then [e.io.message] else []
  }

  /** `TauriError` is `#[error(transparent)]`: message and sources are the wrapped error's. */
  function DiscoveryMessage(e: DiscoveryError): string {
    match e
    case ServiceError(_) => "service error"
    case ServiceDaemonError(_) => "failed to create mDNS service daemon"
    case ServiceRegisterError(_) => "failed to register service with mDNS service daemon"
    case BrowseError(_) => "failed to browse service with mDNS service daemon"
    case HostnameError(_) => "cannot determine system hostname"
    case ShutdownError(_) => "mDNS shutdown error"
    case TauriError(message, _) => message
  }

  function DiscoverySources(e: DiscoveryError): seq<string> {
    if e.TauriError? then e.causes else []
  }

  function NetworkMessage(e: NetworkError): string {
    match e
    case Discovery(_) => "discovery error"
    case Communication(_) => "failed to communicate on the network"
  }

  /** The messages of `e.source()`, `e.source().source()`, ... in order; both variants are `#[from]`. */
  function Sources(e: NetworkError): (chain: seq<string>)
    ensures |chain| >= 1
    ensures e.Communication? ==> chain[0] == CommunicationMessage(e.communication)
    ensures e.Discovery? ==> chain[0] == DiscoveryMessage(e.discovery)
  {
    match e
    case Discovery(d) => [DiscoveryMessage(d)] + DiscoverySources(d)
    case Communication(c) => [CommunicationMessage(c)] + CommunicationSources(c)
  }

  /**
   * `impl From<NetworkError> for String`: the human-readable report of the
   * error chain.  It opens with the top message and the header, and its
   * first cause line is the message of the error the variant wraps.
   */
  function UserMessage(e: NetworkError): (r: string)
    ensures NetworkMessage(e) + FdropCommon.CausedBy <= r
    ensures NetworkMessage(e) + FdropCommon.CausedBy + FdropCommon.CauseLabel + Sources(e)[0] <= r
  {
    var chain := Sources(e);
    FdropCommon.CauseLinesPrefix(chain, 1);
    assert chain[..1][..0] == [];
    assert FdropCommon.CauseLines(chain[..1]) == FdropCommon.CauseLabel + chain[0];
    FdropCommon.Report(NetworkMessage(e), chain)
  }

  /**
   * A communication error without an io cause is reported as the crate's
   * top message followed by exactly one cause line.
   */
  lemma CommunicationUserMessage(c: CommunicationError)
    requires !c.Io?
    ensures UserMessage(Communication(c))
         == "failed to communicate on the network" + FdropCommon.CausedBy + FdropCommon.CauseLabel + CommunicationMessage(c)
  {
    assert Sources(Communication(c)) == [CommunicationMessage(c)];
    FdropCommon.SingleCauseReport("failed to communicate on the network", CommunicationMessage(c));
  }
}
