/**
 * The link handshake of the networking crate: the initiator's
 * `send_link_request`, the responder's `authenticate_peer`, and the
 * `link_device_by_name` command that runs the initiator against the
 * registry.  Connect outcomes, the peer's socket and the user's decision
 * in the confirmation window are inputs; the prost encoder and decoder of
 * the `Link` message are the functions of a `LinkCodec`.
 */
module Handshake {
  import opened Wrappers
  import opened Wire
  import opened Errors
  import opened Registry
  import opened Framing
  import Definitions
  import FdropCommon

  datatype LinkResponse = Accepted | Rejected | Other

  /** The protobuf enum numbers of `LinkResponse` (`resp as i32`). */
  function ResponseValue(r: LinkResponse): int {
    match r
    case Accepted => 0
    case Rejected => 1
    case Other => 2
  }

  /** `LinkResponse::try_from(i32)`: defined exactly on the three enum numbers. */
  function ResponseFrom(v: int): (r: Option<LinkResponse>)
    ensures forall x :: r == Some(x) <==> ResponseValue(x) == v
    ensures r.None? <==> v < 0 || 2 < v
  {
    if v == 0 then Some(Accepted)
    else if v == 1 then Some(Rejected)
    else if v == 2 then Some(Other)
    else None
  }

  /** The protobuf message `Link`. */
  datatype LinkMessage = LinkMessage(request: Option<bool>, name: string, response: Option<int>)

  /** prost's `encode`/`decode` for `Link`: generated code that is not part of this model. */
  datatype LinkCodec = LinkCodec(encode: LinkMessage -> seq<Byte>, decode: seq<Byte> -> Option<LinkMessage>)

  /** `definitions::encode(MessageType::Link, message)`. */
  function LinkFrame(codec: LinkCodec, message: LinkMessage): seq<Byte> {
    Frame(Definitions.Discriminant(Definitions.Link), codec.encode(message))
  }

  /** The socket at the first address that accepts the connection. */
  datatype Peer = Peer(reply: seq<Byte>, writable: bool)

  /** The position of the first address that connects, if any. */
  function FirstReachable(addresses: seq<IpAddr>, reachable: set<IpAddr>): (k: Option<nat>)
    ensures k.Some? ==>
      k.value < |addresses| && addresses[k.value] in reachable &&
      forall j | 0 <= j < k.value :: addresses[j] !in reachable
    ensures k.None? ==> forall j | 0 <= j < |addresses| :: addresses[j] !in reachable
    decreases |addresses|
  {
    if addresses == [] then None
    else if addresses[0] in reachable then Some(0)
    else match FirstReachable(addresses[1..], reachable)
      case None => None
      case Some(k) => Some(k + 1)
  }

  /** The addresses the `for` loop tries: up to and including the first that connects. */
  function Attempted(addresses: seq<IpAddr>, reachable: set<IpAddr>): seq<IpAddr> {
    match FirstReachable(addresses, reachable)
    case None => addresses
    case Some(k) => addresses[..k + 1]
  }

  /**
   * How `send_link_request` reads the peer's answer: `read_stream(..).unwrap()`,
   * a type other than `Link` only logged, then the decoded `response`
   * unwrapped and converted, `Rejected` and `Other` both reported as `Rejected`.
   */
  function ReplyOutcome(reply: seq<Byte>, codec: LinkCodec): Exit<Result<LinkResponse, CommunicationError>> {
    match DecodeFrame(reply).exit
    case Panicked(p) => Panicked(p)
    case Return(Err(_)) => Panicked(UnwrapErr)
    case Return(Ok(frame)) =>
      match codec.decode(frame.payload)
      case None => Return(Err(DecodeError))
      case Some(answer) =>
        if answer.response.None? then Panicked(UnwrapNone)
        else match ResponseFrom(answer.response.value)
          case None => Panicked(UnwrapErr)
          case Some(Accepted) => Return(Ok(Accepted))
          case Some(_) => Return(Ok(Rejected))
  }

  /** What `send_link_request` returns. */
  function LinkRequestOutcome(conn: Connection, reachable: set<IpAddr>, peer: Peer, codec: LinkCodec)
    : Exit<Result<LinkResponse, CommunicationError>>
  {
    if conn.tx.Some? then Return(Ok(Accepted))
    else if FirstReachable(conn.addresses, reachable).None? then Return(Err(NoReachableAddress))
    else if !peer.writable then Return(Err(WriteError(PeerGone)))
    else ReplyOutcome(peer.reply, codec)
  }

  /** The request `send_link_request` writes: a `Link` frame asking to link, with our name. */
  function LinkRequestFrame(codec: LinkCodec, ourName: string): seq<Byte> {
    LinkFrame(codec, LinkMessage(Some(true), ourName, None))
  }

  /** `Connection::send_link_request`. */
  method SendLinkRequest(conn: Connection, ourName: string, reachable: set<IpAddr>, peer: Peer, codec: LinkCodec)
    returns (exit: Exit<Result<LinkResponse, CommunicationError>>, tried: seq<IpAddr>, sent: seq<Byte>)
    ensures exit == LinkRequestOutcome(conn, reachable, peer, codec)
    ensures tried == if conn.tx.Some? then [] else Attempted(conn.addresses, reachable)
    ensures sent == if conn.tx.None? && FirstReachable(conn.addresses, reachable).Some? && peer.writable
                    then LinkRequestFrame(codec, ourName) else []
  {
    tried, sent := [], [];
    if conn.tx.Some? {
      return Return(Ok(Accepted)), tried, sent;
    }
    for i := 0 to |conn.addresses|
      invariant tried == conn.addresses[..i]
      invariant forall j | 0 <= j < i :: conn.addresses[j] !in reachable
    {
      var addr := conn.addresses[i];
      tried := tried + [addr];
      if addr in reachable {  // `TcpStream::connect` succeeded
        assert FirstReachable(conn.addresses, reachable) == Some(i);
        var sock := new TcpStream(peer.reply, peer.writable);
        var message := LinkMessage(Some(true), ourName, None);
        var authMessage := Definitions.Encode(Definitions.Link, codec.encode(message));
        var written := sock.WriteAll(authMessage);
        sent := sock.outgoing;
        if written.Err? {
          return Return(Err(WriteError(written.error))), tried, sent;
        }
        var read := ReadStream(sock);
        if read.Panicked? {
          return Panicked(read.panic), tried, sent;
        }
        if read.value.Err? {
          return Panicked(UnwrapErr), tried, sent;
        }
        // `MessageType::try_from` of a `MessageType` cannot fail; a type other than `Link` is only logged
        var answer := codec.decode(read.value.value.payload);
        if answer.None? {
          return Return(Err(DecodeError)), tried, sent;
        }
        if answer.value.response.None? {
          return Panicked(UnwrapNone), tried, sent;
        }
        var response := ResponseFrom(answer.value.response.value);
        if response.None? {
          return Panicked(UnwrapErr), tried, sent;
        }
        if response.value == Rejected || response.value == Other {
          return Return(Ok(Rejected)), tried, sent;
        }
        return Return(Ok(Accepted)), tried, sent;
      }
    }
    assert conn.addresses[..|conn.addresses|] == conn.addresses;
    exit := Return(Err(NoReachableAddress));
  }

  /** A peer that already has a channel is reported linked without any connection attempt. */
  lemma LinkedPeerShortCircuits(conn: Connection, reachable: set<IpAddr>, peer: Peer, codec: LinkCodec)
    requires conn.tx.Some?
    ensures LinkRequestOutcome(conn, reachable, peer, codec) == Return(Ok(Accepted))
  {
  }

  /** When no address connects, the request fails with `NoReachableAddress`. */
  lemma NoAddressConnects(conn: Connection, reachable: set<IpAddr>, peer: Peer, codec: LinkCodec)
    requires conn.tx.None?
    requires forall a | a in conn.addresses :: a !in reachable
    ensures LinkRequestOutcome(conn, reachable, peer, codec) == Return(Err(NoReachableAddress))
    ensures Attempted(conn.addresses, reachable) == conn.addresses
  {
    forall j | 0 <= j < |conn.addresses|
      ensures conn.addresses[j] !in reachable
    {
      assert conn.addresses[j] in conn.addresses;
    }
  }

  /** Only the first address that connects is used: the loop never tries past it. */
  lemma OnlyFirstReachableUsed(addresses: seq<IpAddr>, reachable: set<IpAddr>, k: nat)
    requires k < |addresses| && addresses[k] in reachable
    requires forall j | 0 <= j < k :: addresses[j] !in reachable
    ensures Attempted(addresses, reachable) == addresses[..k + 1]
  {
    var f := FirstReachable(addresses, reachable);
    assert f.Some?;
    assert f.value == k;
  }

  /** A peer that answers `Rejected` or `Other` makes the request report `Rejected`. */
  lemma PeerRefusalIsRejected(reply: seq<Byte>, codec: LinkCodec, payload: seq<Byte>, answer: LinkMessage, mtype: Definitions.MessageType)
    requires DecodeFrame(reply).exit == Return(Ok(Received(mtype, payload)))
    requires codec.decode(payload) == Some(answer)
    requires answer.response == Some(ResponseValue(Rejected)) || answer.response == Some(ResponseValue(Other))
    ensures ReplyOutcome(reply, codec) == Return(Ok(Rejected))
  {
  }

  /** `send_link_request` never returns `Other`. */
  lemma LinkRequestNeverOther(conn: Connection, reachable: set<IpAddr>, peer: Peer, codec: LinkCodec)
    ensures LinkRequestOutcome(conn, reachable, peer, codec) != Return(Ok(Other))
  {
  }

  /**
   * The errors `send_link_request` returns have no `source()` (the io error
   * inside `WriteError` is a plain field, not `#[source]`), so their report
   * has one cause line.
   */
  lemma LinkRequestErrorHasNoCause(conn: Connection, reachable: set<IpAddr>, peer: Peer, codec: LinkCodec)
    ensures var out := LinkRequestOutcome(conn, reachable, peer, codec);
      out.Return? && out.value.Err? ==>
        out.value.error in {NoReachableAddress, DecodeError, WriteError(PeerGone)}
  {
  }

  /** What the responder's handshake ends in: its exit, the registry, the id of the prompt shown, and what it wrote. */
  datatype AuthStep = AuthStep(
    exit: Exit<Result<Option<(ChannelId, string)>, CommunicationError>>,
    state: ManagerState,
    requestId: Option<U8>,
    sent: seq<Byte>)

  /**
   * `authenticate_peer` as a function of the registry, the bytes the peer
   * sends, whether it takes our answer, and the user's decision.
   */
  function Authenticate(s: ManagerState, incoming: seq<Byte>, writable: bool, codec: LinkCodec,
                        decision: LinkResponse, channel: ChannelId): AuthStep
  {
    match DecodeFrame(incoming).exit
    case Panicked(p) => AuthStep(Panicked(p), s, None, [])
    case Return(Err(e)) => AuthStep(Return(Err(e)), s, None, [])
    case Return(Ok(frame)) =>
      if frame.mtype != Definitions.Link then AuthStep(Return(Err(Unauthenticated)), s, None, [])
      else match codec.decode(frame.payload)
        case None => AuthStep(Return(Err(DecodeError)), s, None, [])
        case Some(request) => Answer(s, request, writable, codec, decision, channel)
  }

  /** The part of `authenticate_peer` after the request is decoded: the registry and the prompt. */
  function Answer(s: ManagerState, request: LinkMessage, writable: bool, codec: LinkCodec,
                  decision: LinkResponse, channel: ChannelId): AuthStep
  {
    if s.instanceName.None? then AuthStep(Panicked(UnwrapNone), s, None, [])
    else
      var fullName := FullName(request.name);
      var counted := s.(activeLinkRequests := WrappingIncrement(s.activeLinkRequests));
      if fullName !in s.connections then AuthStep(Return(Err(PeerNotFound)), counted, None, [])
      else
        var after :=
          if decision == Accepted
          then counted.(connections := s.connections[fullName := s.connections[fullName].(tx := Some(channel))])
          else counted;
        var ret := if decision == Accepted then Some((channel, fullName)) else None;
        var answer := LinkFrame(codec, LinkMessage(None, s.instanceName.value, Some(ResponseValue(decision))));
        if writable then AuthStep(Return(Ok(ret)), after, Some(s.activeLinkRequests), answer)
        else AuthStep(Panicked(UnwrapErr), after, Some(s.activeLinkRequests), [])
  }

  /** `authenticate_peer`, against the shared registry and the accepted stream. */
  method AuthenticatePeer(cm: ConnectionManager, stream: TcpStream, codec: LinkCodec,
                          decision: LinkResponse, channel: ChannelId)
    returns (exit: Exit<Result<Option<(ChannelId, string)>, CommunicationError>>, requestId: Option<U8>)
    requires cm.Valid()
    modifies cm, stream
    ensures cm.Valid()
    ensures var a := Authenticate(old(cm.State()), old(stream.incoming), stream.writable, codec, decision, channel);
      exit == a.exit && requestId == a.requestId && cm.State() == a.state &&
      stream.outgoing == old(stream.outgoing) + a.sent
    ensures stream.incoming == DecodeFrame(old(stream.incoming)).rest
  {
    var read := ReadStream(stream);
    if read.Panicked? {
      return Panicked(read.panic), None;
    }
    if read.value.Err? {
      return Return(Err(read.value.error)), None;
    }
    var frame := read.value.value;
    if frame.mtype != Definitions.Link {
      return Return(Err(Unauthenticated)), None;
    }
    var linkRequest := codec.decode(frame.payload);
    if linkRequest.None? {
      return Return(Err(DecodeError)), None;
    }
    exit, requestId := AnswerRequest(cm, stream, codec, linkRequest.value, decision, channel);
  }

  /** The rest of `authenticate_peer` once the `Link` request is decoded. */
  method AnswerRequest(cm: ConnectionManager, stream: TcpStream, codec: LinkCodec, linkRequest: LinkMessage,
                       decision: LinkResponse, channel: ChannelId)
    returns (exit: Exit<Result<Option<(ChannelId, string)>, CommunicationError>>, requestId: Option<U8>)
    requires cm.Valid()
    modifies cm, stream`outgoing
    ensures cm.Valid()
    ensures var a := Answer(old(cm.State()), linkRequest, stream.writable, codec, decision, channel);
      exit == a.exit && requestId == a.requestId && cm.State() == a.state &&
      stream.outgoing == old(stream.outgoing) + a.sent
  {
    requestId := None;
    ghost var s0 := cm.State();
    var fullName := linkRequest.name + "." + MdnsServiceType;
    assert fullName == FullName(linkRequest.name);
    if cm.instanceName.None? {
      return Panicked(UnwrapNone), None;
    }
    var ourName := cm.instanceName.value;
    var promptId := cm.NextLinkRequestId();
    var known := cm.ConnectionExists(fullName);
    if !known {
      return Return(Err(PeerNotFound)), None;
    }
    requestId := Some(promptId);
    assert fullName in s0.connections;
    // `confirm_link_request` shows the prompt and waits; its answer is `decision`
    var ret: Option<(ChannelId, string)> := None;
    if decision == Accepted {
      var taken := cm.TakeConnectionByName(fullName);
      var conn := taken.value.(tx := Some(channel));
      var inserted := cm.Insert(conn);
      ret := Some((channel, fullName));
      assert cm.availableConnections == s0.connections[fullName := s0.connections[fullName].(tx := Some(channel))];
    }
    assert cm.State() == Answer(s0, linkRequest, stream.writable, codec, decision, channel).state;
    var answer := LinkMessage(None, ourName, Some(ResponseValue(decision)));
    var answerFrame := Definitions.Encode(Definitions.Link, codec.encode(answer));
    var written := stream.WriteAll(answerFrame);
    if written.Err? {
      return Panicked(UnwrapErr), requestId;
    }
    return Return(Ok(ret)), requestId;
  }

  /** A first frame of any other type is refused, and nothing changes. */
  lemma FirstFrameMustBeLink(s: ManagerState, incoming: seq<Byte>, writable: bool, codec: LinkCodec,
                             decision: LinkResponse, channel: ChannelId, payload: seq<Byte>)
    requires DecodeFrame(incoming).exit == Return(Ok(Received(Definitions.TextMessage, payload)))
    ensures var a := Authenticate(s, incoming, writable, codec, decision, channel);
      a.exit == Return(Err(Unauthenticated)) && a.state == s && a.sent == []
  {
  }

  /** An undecodable `Link` payload is a `DecodeError`, and nothing changes. */
  lemma UndecodableRequest(s: ManagerState, incoming: seq<Byte>, writable: bool, codec: LinkCodec,
                           decision: LinkResponse, channel: ChannelId, payload: seq<Byte>)
    requires DecodeFrame(incoming).exit == Return(Ok(Received(Definitions.Link, payload)))
    requires codec.decode(payload).None?
    ensures var a := Authenticate(s, incoming, writable, codec, decision, channel);
      a.exit == Return(Err(DecodeError)) && a.state == s
  {
  }

  /**
   * Once a request is decoded (and our own name is known) the counter goes
   * up by exactly one, whatever happens next; nothing else bumps it.
   */
  lemma CounterBumpedOnce(s: ManagerState, incoming: seq<Byte>, writable: bool, codec: LinkCodec,
                          decision: LinkResponse, channel: ChannelId)
    ensures var a := Authenticate(s, incoming, writable, codec, decision, channel);
      a.state.activeLinkRequests == s.activeLinkRequests ||
      a.state.activeLinkRequests == WrappingIncrement(s.activeLinkRequests)
    ensures var a := Authenticate(s, incoming, writable, codec, decision, channel);
      var d := DecodeFrame(incoming).exit;
      (d.Return? && d.value.Ok? && d.value.value.mtype == Definitions.Link &&
       codec.decode(d.value.value.payload).Some? && s.instanceName.Some?)
      <==> a.state.activeLinkRequests == WrappingIncrement(s.activeLinkRequests)
  {
  }

  /** A request from a name that was never discovered is refused, and no record changes. */
  lemma UndiscoveredPeerNotFound(s: ManagerState, incoming: seq<Byte>, writable: bool, codec: LinkCodec,
                                 decision: LinkResponse, channel: ChannelId, payload: seq<Byte>, request: LinkMessage)
    requires DecodeFrame(incoming).exit == Return(Ok(Received(Definitions.Link, payload)))
    requires codec.decode(payload) == Some(request) && s.instanceName.Some?
    requires FullName(request.name) !in s.connections
    ensures var a := Authenticate(s, incoming, writable, codec, decision, channel);
      a.exit == Return(Err(PeerNotFound)) && a.state.connections == s.connections && a.requestId.None?
  {
  }

  /**
   * Only an accepted request from a discovered peer changes the records:
   * that one record gains the channel (and stays `linked == false`), every
   * other record is untouched; other decisions change no record.
   */
  lemma OnlyAcceptanceLinks(s: ManagerState, incoming: seq<Byte>, writable: bool, codec: LinkCodec,
                            decision: LinkResponse, channel: ChannelId)
    ensures var a := Authenticate(s, incoming, writable, codec, decision, channel);
      a.state.connections == s.connections ||
      exists payload, request ::
        DecodeFrame(incoming).exit == Return(Ok(Received(Definitions.Link, payload))) &&
        codec.decode(payload) == Some(request) &&
        decision == Accepted && FullName(request.name) in s.connections &&
        a.state.connections == s.connections[FullName(request.name) := s.connections[FullName(request.name)].(tx := Some(channel))]
  {
    var a := Authenticate(s, incoming, writable, codec, decision, channel);
    if a.state.connections != s.connections {
      var frame := DecodeFrame(incoming).exit.value.value;
      var request := codec.decode(frame.payload).value;
      assert DecodeFrame(incoming).exit == Return(Ok(Received(Definitions.Link, frame.payload)));
    }
  }

  /** The handshake only hands out a channel to a discovered peer the user accepted. */
  lemma LinkedOnlyIfDiscoveredAndAccepted(s: ManagerState, incoming: seq<Byte>, writable: bool, codec: LinkCodec,
                                          decision: LinkResponse, channel: ChannelId)
    ensures var a := Authenticate(s, incoming, writable, codec, decision, channel);
      a.exit.Return? && a.exit.value.Ok? && a.exit.value.value.Some? ==>
        decision == Accepted && a.exit.value.value.value.1 in s.connections &&
        a.state.connections[a.exit.value.value.value.1].tx == Some(channel)
  {
  }

  /**
   * The other direction: an accepted request from a discovered peer gives
   * that peer's record the new channel, leaves every other record alone,
   * and, once the answer is written, hands the channel out with the full name.
   */
  lemma AcceptedLinksRecord(s: ManagerState, incoming: seq<Byte>, writable: bool, codec: LinkCodec,
                            channel: ChannelId, payload: seq<Byte>, request: LinkMessage)
    requires DecodeFrame(incoming).exit == Return(Ok(Received(Definitions.Link, payload)))
    requires codec.decode(payload) == Some(request) && s.instanceName.Some?
    requires FullName(request.name) in s.connections
    ensures var a := Authenticate(s, incoming, writable, codec, Accepted, channel);
      var fn := FullName(request.name);
      a.state.connections == s.connections[fn := s.connections[fn].(tx := Some(channel))] &&
      a.requestId == Some(s.activeLinkRequests) &&
      (writable ==> a.exit == Return(Ok(Some((channel, fn)))) &&
                    a.sent == LinkFrame(codec, LinkMessage(None, s.instanceName.value, Some(ResponseValue(Accepted)))))
  {
  }

  /**
   * A refusal (`Rejected` or `Other`) of a discovered peer changes no record,
   * still shows the prompt, and answers with the user's decision but no channel.
   */
  lemma RefusalKeepsRecords(s: ManagerState, incoming: seq<Byte>, writable: bool, codec: LinkCodec,
                            decision: LinkResponse, channel: ChannelId, payload: seq<Byte>, request: LinkMessage)
    requires DecodeFrame(incoming).exit == Return(Ok(Received(Definitions.Link, payload)))
    requires codec.decode(payload) == Some(request) && s.instanceName.Some?
    requires FullName(request.name) in s.connections && decision != Accepted
    ensures var a := Authenticate(s, incoming, writable, codec, decision, channel);
      a.state.connections == s.connections &&
      a.requestId == Some(s.activeLinkRequests) &&
      (writable ==> a.exit == Return(Ok(None)) &&
                    a.sent == LinkFrame(codec, LinkMessage(None, s.instanceName.value, Some(ResponseValue(decision)))))
  {
  }

  /** The strings `link_device_by_name` returns for each answer. */
  function ResponseLabel(r: LinkResponse): string {
    match r
    case Accepted => "accepted"
    case Rejected => "rejected"
    case Other => "other"
  }

  /** `commands::link_device_by_name`: take the record, run the request, put the record back. */
  method LinkDeviceByName(cm: ConnectionManager, name: string, ourName: string,
                          reachable: set<IpAddr>, peer: Peer, codec: LinkCodec)
    returns (exit: Exit<Result<string, string>>)
    requires cm.Valid()
    modifies cm`availableConnections, cm`activeLinkRequests
    ensures cm.Valid()
    ensures name !in old(cm.availableConnections) ==>
      exit == Panicked(UnwrapNone) && cm.State() == old(cm.State())
    ensures name in old(cm.availableConnections) ==>
      var out := LinkRequestOutcome(old(cm.availableConnections)[name], reachable, peer, codec);
      (out.Panicked? ==>
         exit == Panicked(out.panic) &&
         cm.availableConnections == old(cm.availableConnections) - {name} &&
         cm.activeLinkRequests == old(cm.activeLinkRequests)) &&
      (out.Return? && out.value.Err? ==>
         exit == Return(Err(UserMessage(Communication(out.value.error)))) &&
         cm.availableConnections == old(cm.availableConnections) - {name} &&
         cm.activeLinkRequests == old(cm.activeLinkRequests)) &&
      (out.Return? && out.value.Ok? ==>
         exit == Return(Ok(ResponseLabel(out.value.value))) &&
         cm.availableConnections == old(cm.availableConnections) &&
         cm.activeLinkRequests ==
           if out.value.value == Rejected then WrappingIncrement(old(cm.activeLinkRequests))
           else old(cm.activeLinkRequests))
  {
    var taken := cm.TakeConnectionByName(name);
    if taken.None? {
      return Panicked(UnwrapNone);
    }
    var actualConnection := taken.value;
    var res, tried, sent := SendLinkRequest(actualConnection, ourName, reachable, peer, codec);
    if res.Panicked? {
      return Panicked(res.panic);
    }
    if res.value.Err? {
      var e := Communication(res.value.error);
      var report := FdropCommon.HumanReadableError(NetworkMessage(e), Sources(e));
      return Return(Err(report));
    }
    var answerText: string;
    match res.value.value {
      case Accepted => answerText := "accepted";
      case Rejected =>
        var windowId := cm.NextLinkRequestId();  // names the "rejected" window
        answerText := "rejected";
      case Other => answerText := "other";
    }
    var inserted := cm.Insert(actualConnection);
    assert old(cm.availableConnections) - {name} + map[name := actualConnection] == old(cm.availableConnections);
    return Return(Ok(answerText));
  }
}
