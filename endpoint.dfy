/**
 * The bookkeeping of an endpoint: its channels (one per route, each with
 * its address mode), the outgoing peer connects it is waiting on (keyed by
 * the broker stream that carries them), the broker streams announced as
 * incoming peer connects, and the framing of large messages on a stream.
 *
 * Sockets, the noise handshake, protobuf and header encodings, and the
 * channel internals are not modelled: what they return is passed in.
 */
module Endpoint {
  import opened Bytes
  import opened Wrappers
  import opened Discovery
  import Packet

  type RoutingKey = Packet.RoutingKey

  /** A peer's public identity. */
  type Identity(==)

  /** A signing secret (`identity::Secret`). */
  type Secret(==)

  /** A noise handshake in progress (`noise::HandshakeRequester`). */
  type Requester

  /** The part of a `UdpChannel` modelled here. */
  datatype Channel = Channel(identity: Identity, addrs: AddressMode)

  /** `ConnectResponseStage`: an outgoing connect waiting for the broker's headers, then for its response. */
  datatype Stage =
    | WaitingForHeaders(identity: Identity, noise: Requester)
    | WaitingForResponse(identity: Identity, noise: Requester)

  /** `proto::ConnectResponse`, the broker's answer to an outgoing connect. */
  datatype ConnectResponseMsg = ConnectResponseMsg(ok: bool, handshake: seq<u8>, route: RoutingKey, paths: seq<Path>)

  /** `ConnectResponse`, handed to the application with an `OutgoingConnect` event. */
  datatype ConnectResponse = ConnectResponse(identity: Identity, cr: Option<ConnectResponseMsg>, requester: Option<Requester>)

  /** `ConnectRequest`: a checked peer connect request arriving through the broker. */
  datatype ConnectRequest = ConnectRequest(qstream: u32, identity: Identity, route: RoutingKey, paths: seq<Path>)

  datatype Event =
    | IncomingConnect(request: ConnectRequest)
    | OutgoingConnect(response: ConnectResponse)
    | Disconnect(route: RoutingKey, identity: Identity)

  datatype AcceptError =
    | OutgoingConnectFailed(identity: Identity, cr: Option<ConnectResponseMsg>)
    | InvalidHandshakePacket(error: Packet.PacketError)
    | HandshakeFailed

  // ---------------------------------------------------------------------
  // The outgoing-connect stage machine and the incoming-connect set

  datatype StreamOutcome = StreamOutcome(incoming: set<u32>, outgoing: map<u32, Stage>, event: Option<Event>)

  /**
   * The `ReceiveStream` arm of `poll` for a frame on `stream`. On the broker
   * route the stream leaves `incoming` whatever happens next. It yields an
   * incoming connect when it was announced as one and a publish secret exists
   * (`peer` is what checking the request gave; `None` means it was rejected),
   * and otherwise advances an outgoing connect waiting on it (`response` is
   * the decoded `ConnectResponse` frame).
   */
  function StreamFrame(isBroker: bool, publishing: bool, incoming: set<u32>, outgoing: map<u32, Stage>,
                       stream: u32, peer: Option<ConnectRequest>, response: ConnectResponseMsg): (r: StreamOutcome)
    ensures r.incoming == if isBroker then incoming - {stream} else incoming
    ensures forall s :: s != stream ==> (s in r.outgoing <==> s in outgoing)
    ensures forall s :: s != stream && s in outgoing ==> r.outgoing[s] == outgoing[s]
  {
    var left := if isBroker then incoming - {stream} else incoming;
    if isBroker && stream in incoming && publishing then
      StreamOutcome(left, outgoing, if peer.Some? then Some(IncomingConnect(peer.value)) else None)
    else if isBroker && stream in outgoing then
      match outgoing[stream]
      case WaitingForHeaders(id, noise) =>
        StreamOutcome(left, outgoing[stream := WaitingForResponse(id, noise)], None)
      case WaitingForResponse(id, noise) =>
        StreamOutcome(left, outgoing - {stream}, Some(OutgoingConnect(ConnectResponse(id, Some(response), Some(noise)))))
    else
      StreamOutcome(left, outgoing, None)
  }

  datatype CloseOutcome = CloseOutcome(outgoing: map<u32, Stage>, event: Option<Event>)

  /** The `Close` arm of `poll`: closing a stream an outgoing connect waits on aborts that connect. */
  function CloseFrame(isBroker: bool, outgoing: map<u32, Stage>, stream: u32): (r: CloseOutcome)
    ensures r.outgoing == outgoing - {stream} || r.outgoing == outgoing
    ensures r.event.Some? <==> isBroker && stream in outgoing
  {
    if isBroker && stream in outgoing then
      CloseOutcome(outgoing - {stream}, Some(OutgoingConnect(ConnectResponse(outgoing[stream].identity, None, None))))
    else
      CloseOutcome(outgoing, None)
  }

  /**
   * A connect registered on `stream` (`outgoing[stream := WaitingForHeaders]`)
   * completes on the second frame of that stream: the first (the broker's
   * headers) only advances the stage, the second hands over the response
   * together with the handshake state, for the identity the connect was
   * made to, and forgets the stream. No other entry is touched.
   */
  lemma {:induction false} ConnectCompletes(publishing: bool, incoming: set<u32>, outgoing: map<u32, Stage>,
                                            stream: u32, target: Identity, noise: Requester,
                                            peer1: Option<ConnectRequest>, headers: ConnectResponseMsg,
                                            peer2: Option<ConnectRequest>, response: ConnectResponseMsg)
    requires !(stream in incoming && publishing)
    ensures var r1 := StreamFrame(true, publishing, incoming, outgoing[stream := WaitingForHeaders(target, noise)], stream, peer1, headers);
      && r1.event == None
      && r1.outgoing == outgoing[stream := WaitingForResponse(target, noise)]
      && var r2 := StreamFrame(true, publishing, r1.incoming, r1.outgoing, stream, peer2, response);
      && r2.event == Some(OutgoingConnect(ConnectResponse(target, Some(response), Some(noise))))
      && r2.outgoing == outgoing - {stream}
  {
    var o0 := outgoing[stream := WaitingForHeaders(target, noise)];
    var r1 := StreamFrame(true, publishing, incoming, o0, stream, peer1, headers);
    assert r1.outgoing == o0[stream := WaitingForResponse(target, noise)];
    assert o0[stream := WaitingForResponse(target, noise)] == outgoing[stream := WaitingForResponse(target, noise)];
    assert stream !in r1.incoming;
    var r2 := StreamFrame(true, publishing, r1.incoming, r1.outgoing, stream, peer2, response);
    assert r2.outgoing == r1.outgoing - {stream};
    assert r1.outgoing - {stream} == outgoing - {stream};
  }

  /**
   * An incoming connect is reported only for a stream announced as one, while
   * a publish secret exists, and only once: the first frame on the stream
   * takes it out of `incoming`, so a second frame cannot report it again.
   */
  lemma {:induction false} IncomingReportedOnce(isBroker: bool, publishing: bool, incoming: set<u32>, outgoing: map<u32, Stage>,
                                                stream: u32, peer1: Option<ConnectRequest>, response1: ConnectResponseMsg,
                                                peer2: Option<ConnectRequest>, response2: ConnectResponseMsg)
    ensures var r1 := StreamFrame(isBroker, publishing, incoming, outgoing, stream, peer1, response1);
      && (r1.event.Some? && r1.event.value.IncomingConnect? ==>
            isBroker && publishing && stream in incoming && r1.event == Some(IncomingConnect(peer1.value)))
      && var r2 := StreamFrame(isBroker, publishing, r1.incoming, r1.outgoing, stream, peer2, response2);
      !(r2.event.Some? && r2.event.value.IncomingConnect?)
  {
    var r1 := StreamFrame(isBroker, publishing, incoming, outgoing, stream, peer1, response1);
    if isBroker {
      assert stream !in r1.incoming;
    }
  }

  /**
   * Closing a stream an outgoing connect waits on reports the failed connect
   * for its identity, with neither response nor handshake, and forgets the
   * stream: a later frame on it completes nothing.
   */
  lemma {:induction false} CloseAborts(publishing: bool, incoming: set<u32>, outgoing: map<u32, Stage>, stream: u32,
                                       peer: Option<ConnectRequest>, response: ConnectResponseMsg)
    requires stream in outgoing
    ensures var c := CloseFrame(true, outgoing, stream);
      && c.event == Some(OutgoingConnect(ConnectResponse(outgoing[stream].identity, None, None)))
      && c.outgoing == outgoing - {stream}
      && var r := StreamFrame(true, publishing, incoming, c.outgoing, stream, peer, response);
      !(r.event.Some? && r.event.value.OutgoingConnect?) && r.outgoing == c.outgoing
  {
    var c := CloseFrame(true, outgoing, stream);
    assert stream !in c.outgoing;
  }

  /** Frames on routes other than the broker's change no connect bookkeeping and report nothing. */
  lemma {:induction false} OtherRoutesIgnored(publishing: bool, incoming: set<u32>, outgoing: map<u32, Stage>, stream: u32,
                                              peer: Option<ConnectRequest>, response: ConnectResponseMsg)
    ensures StreamFrame(false, publishing, incoming, outgoing, stream, peer, response) == StreamOutcome(incoming, outgoing, None)
    ensures CloseFrame(false, outgoing, stream) == CloseOutcome(outgoing, None)
  {
  }

  // ---------------------------------------------------------------------
  // Candidate paths of a new peer channel

  /** The offered paths, plus the broker's own address as BrokerOrigin when the broker channel is established. */
  function Candidates(ps: seq<Path>, broker: Option<Addr>): (r: Paths)
    requires KnownCategories(ps)
    ensures broker.Some? ==> broker.value in r && r[broker.value] == PathInfo(BrokerOrigin, 0)
    ensures forall a :: a in OfferedPaths(ps) && (broker.None? || a != broker.value) ==> a in r && r[a] == OfferedPaths(ps)[a]
  {
    if broker.Some? then OfferedPaths(ps)[broker.value := PathInfo(BrokerOrigin, 0)] else OfferedPaths(ps)
  }

  /**
   * The candidates are the offered addresses and the broker's; the broker's
   * entry is BrokerOrigin whatever was offered for it; every other entry
   * keeps the category of the last path offering it; nothing is counted yet.
   */
  lemma {:induction false} CandidatesContent(ps: seq<Path>, broker: Option<Addr>)
    requires KnownCategories(ps)
    ensures Candidates(ps, broker).Keys == (set p | p in ps :: p.addr) + (if broker.Some? then {broker.value} else {})
    ensures broker.Some? ==> Candidates(ps, broker)[broker.value] == PathInfo(BrokerOrigin, 0)
    ensures forall i :: 0 <= i < |ps| && (broker.Some? ==> ps[i].addr != broker.value)
                        && (forall j :: i < j < |ps| ==> ps[j].addr != ps[i].addr) ==>
      Candidates(ps, broker)[ps[i].addr] == PathInfo(CategoryOf(ps[i].category), 0)
    ensures Bounded(Discovering(Candidates(ps, broker)))
  {
    OfferedPathsKeys(ps);
    forall i | 0 <= i < |ps| && (broker.Some? ==> ps[i].addr != broker.value)
                && (forall j :: i < j < |ps| ==> ps[j].addr != ps[i].addr)
      ensures Candidates(ps, broker)[ps[i].addr] == PathInfo(CategoryOf(ps[i].category), 0)
    {
      OfferedPathsLastWins(ps, i);
    }
  }

  /**
   * The response to an outgoing connect gets as far as the handshake: both
   * parts are present, `ok` is set and the handshake packet decodes.
   */
  predicate ReachesHandshake(q: ConnectResponse)
  {
    q.cr.Some? && q.requester.Some? && q.cr.value.ok && Packet.ParsePacket(q.cr.value.handshake).Ok?
  }

  /**
   * Whether the response to an outgoing connect passes the checks of
   * `accept_outgoing`, in their order. `transport` is the route of the
   * transport `into_transport` yields (`None` is its error).
   */
  function AcceptCheck(q: ConnectResponse, transport: Option<RoutingKey>): (r: Result<ConnectResponseMsg, AcceptError>)
    ensures r.Ok? <==> ReachesHandshake(q) && transport.Some?
    ensures r.Ok? ==> r.value == q.cr.value
    ensures q.cr.None? || q.requester.None? ==> r == Err(OutgoingConnectFailed(q.identity, q.cr))
    ensures q.cr.Some? && q.requester.Some? && !q.cr.value.ok ==> r == Err(OutgoingConnectFailed(q.identity, q.cr))
    ensures q.cr.Some? && q.requester.Some? && q.cr.value.ok && Packet.ParsePacket(q.cr.value.handshake).Err? ==>
      r == Err(InvalidHandshakePacket(Packet.ParsePacket(q.cr.value.handshake).error))
    ensures ReachesHandshake(q) && transport.None? ==> r == Err(HandshakeFailed)
  {
    if q.cr.None? || q.requester.None? then Err(OutgoingConnectFailed(q.identity, q.cr))
    else if !q.cr.value.ok then Err(OutgoingConnectFailed(q.identity, q.cr))
    else
      match Packet.ParsePacket(q.cr.value.handshake)
      case Err(e) => Err(InvalidHandshakePacket(e))
      case Ok(_) => if transport.None? then Err(HandshakeFailed) else Ok(q.cr.value)
  }

  /**
   * The conditions under which `accept_outgoing` panics rather than returning.
   * `responded` is the peer identity `recv_response` gives (`None` is its
   * error, which `unwrap` turns into a panic). Once a transport exists, a
   * handshake for another identity or route, or a path of unknown category,
   * panics too.
   */
  predicate AcceptPanics(q: ConnectResponse, responded: Option<Identity>, transport: Option<RoutingKey>)
  {
    ReachesHandshake(q) &&
      (responded.None? ||
       (transport.Some? &&
        (responded.value != q.identity || transport.value != q.cr.value.route || !KnownCategories(q.cr.value.paths))))
  }

  // ---------------------------------------------------------------------
  // The endpoint

  class Endpoint {
    const brokerRoute: RoutingKey
    var channels: map<RoutingKey, Channel>
    var incoming: set<u32>
    var outgoing: map<u32, Stage>
    var publishSecret: Option<Secret>

    /** Every discovering channel is still below the settling count. */
    ghost predicate Valid()
      reads this
    {
      forall r :: r in channels ==> Bounded(channels[r].addrs)
    }

    /** The broker's address, when the broker channel is present and established. */
    function BrokerAddress(): (r: Option<Addr>)
      reads this
      ensures r.Some? <==> brokerRoute in channels && channels[brokerRoute].addrs.Established?
      ensures r.Some? ==> r.value == channels[brokerRoute].addrs.addr
    {
      if brokerRoute in channels && channels[brokerRoute].addrs.Established?
      then Some(channels[brokerRoute].addrs.addr)
      else None
    }

    /** `Endpoint::new`: one channel, to the broker, established on the address the broker answered from. */
    constructor (route: RoutingKey, identity: Identity, addr: Addr)
      ensures Valid()
      ensures brokerRoute == route
      ensures channels == map[route := Channel(identity, Established(addr, map[]))]
      ensures incoming == {} && outgoing == map[] && publishSecret == None
    {
      brokerRoute := route;
      channels := map[route := Channel(identity, Established(addr, map[]))];
      incoming := {};
      outgoing := map[];
      publishSecret := None;
    }

    /** The part of `publish` that keeps state: a publish secret is made (`generated`) only if none exists. */
    method Publish(generated: Secret)
      modifies this`publishSecret
      ensures publishSecret == if old(publishSecret).Some? then old(publishSecret) else Some(generated)
    {
      if publishSecret.None? {
        publishSecret := Some(generated);
      }
    }

    /**
     * `connect`: `initiated` is what starting the noise handshake gave (`None`
     * is its error) and `streamId` the broker stream opened for the request.
     */
    method Connect(target: Identity, initiated: Option<Requester>, streamId: u32) returns (ok: bool)
      requires initiated.Some? ==> brokerRoute in channels
      modifies this`outgoing
      ensures ok <==> initiated.Some?
      ensures outgoing == if ok then old(outgoing)[streamId := WaitingForHeaders(target, initiated.value)] else old(outgoing)
    {
      if initiated.None? {
        return false;
      }
      outgoing := outgoing[streamId := WaitingForHeaders(target, initiated.value)];
      ok := true;
    }

    /** The path map both accept operations build for the new channel. */
    method DiscoveryPaths(ps: seq<Path>) returns (paths: Paths)
      requires KnownCategories(ps)
      ensures paths == Candidates(ps, BrokerAddress())
    {
      paths := BuildPaths(ps);
      if brokerRoute in channels {
        var chan := channels[brokerRoute];
        if chan.addrs.Established? {
          paths := paths[chan.addrs.addr := PathInfo(BrokerOrigin, 0)];
        }
      }
    }

    /**
     * `accept_outgoing`: `responded` is what `recv_response` gave and
     * `transport` the route of what `into_transport` gave (`None` is an
     * error of either). On success, a discovering channel for the
     * response's route replaces any channel on that route.
     */
    method AcceptOutgoing(q: ConnectResponse, responded: Option<Identity>, transport: Option<RoutingKey>)
      returns (r: Result<RoutingKey, AcceptError>)
      requires Valid()
      requires !AcceptPanics(q, responded, transport)
      modifies this`channels
      ensures Valid()
      ensures r.Err? <==> AcceptCheck(q, transport).Err?
      ensures r.Err? ==> r.error == AcceptCheck(q, transport).error && channels == old(channels)
      ensures r.Ok? ==>
        && r.value == q.cr.value.route
        && channels == old(channels)[r.value := Channel(q.identity, Discovering(Candidates(q.cr.value.paths, old(BrokerAddress()))))]
    {
      if q.cr.None? || q.requester.None? {
        return Err(OutgoingConnectFailed(q.identity, q.cr));
      }
      var cr := q.cr.value;
      if !cr.ok {
        return Err(OutgoingConnectFailed(q.identity, Some(cr)));
      }
      var pkt := Packet.Decode(cr.handshake);
      if pkt.Err? {
        return Err(InvalidHandshakePacket(pkt.error));
      }
      var hsIdentity := responded.value;
      if transport.None? {
        return Err(HandshakeFailed);
      }
      assert hsIdentity == q.identity && cr.route == transport.value;
      var paths := DiscoveryPaths(cr.paths);
      CandidatesContent(cr.paths, BrokerAddress());
      channels := channels[cr.route := Channel(q.identity, Discovering(paths))];
      r := Ok(cr.route);
    }

    /** The state change of `accept_incomming`: a discovering channel for the requested route. */
    method AcceptIncoming(q: ConnectRequest)
      requires Valid()
      requires KnownCategories(q.paths)
      modifies this`channels
      ensures Valid()
      ensures channels == old(channels)[q.route := Channel(q.identity, Discovering(Candidates(q.paths, old(BrokerAddress()))))]
    {
      var paths := DiscoveryPaths(q.paths);
      CandidatesContent(q.paths, BrokerAddress());
      channels := channels[q.route := Channel(q.identity, Discovering(paths))];
    }

    /**
     * The receive half of `poll` for one datagram `buf` from `from`: decode
     * the packet, find the channel of its route, count the sender while
     * discovering (settling on a best address at the fifth reception), and
     * apply the migration rule once established. `recvOk` is whether the
     * channel accepted the packet.
     */
    method ReceiveDatagram(buf: seq<u8>, from: Addr, recvOk: bool)
      requires Valid()
      modifies this`channels
      ensures Valid()
      ensures Packet.ParsePacket(buf).Err? || Packet.ParsePacket(buf).value.route !in old(channels) ==>
        channels == old(channels)
      ensures Packet.ParsePacket(buf).Ok? && Packet.ParsePacket(buf).value.route in old(channels) ==>
        var route := Packet.ParsePacket(buf).value.route;
        var chan := old(channels)[route];
        exists best :: ScanPick(chan.addrs, from, best)
          && channels == old(channels)[route := chan.(addrs := Receive(chan.addrs, from, recvOk, best))]
    {
      var pkt := Packet.Decode(buf);
      if pkt.Err? {
        return;
      }
      var route := pkt.value.route;
      if route !in channels {
        return;
      }
      var chan := channels[route];
      var mode, best := ReceiveStep(chan.addrs, from, recvOk);
      ReceiveBounded(chan.addrs, from, recvOk, best);
      channels := channels[route := chan.(addrs := mode)];
    }

    /** The `ReceiveHeader` arm of `poll` on the broker route: a peer-connect request announces an incoming connect. */
    method OnReceiveHeader(route: RoutingKey, stream: u32, peerConnectPath: bool)
      modifies this`incoming
      ensures incoming == if route == brokerRoute && peerConnectPath then old(incoming) + {stream} else old(incoming)
    {
      if route == brokerRoute && peerConnectPath {
        incoming := incoming + {stream};
      }
    }

    /** The `ReceiveStream` arm of `poll`. */
    method OnReceiveStream(route: RoutingKey, stream: u32, peer: Option<ConnectRequest>, response: ConnectResponseMsg)
      returns (ev: Option<Event>)
      modifies this`incoming, this`outgoing
      ensures StreamOutcome(incoming, outgoing, ev)
        == StreamFrame(route == brokerRoute, publishSecret.Some?, old(incoming), old(outgoing), stream, peer, response)
    {
      var isBroker := route == brokerRoute;
      var removed := false;
      if isBroker {
        removed := stream in incoming;
        incoming := incoming - {stream};
      }
      if isBroker && removed && publishSecret.Some? {
        ev := if peer.Some? then Some(IncomingConnect(peer.value)) else None;
      } else if isBroker && stream in outgoing {
        var cr := outgoing[stream];
        outgoing := outgoing - {stream};
        match cr {
          case WaitingForHeaders(identity, noise) =>
            outgoing := outgoing[stream := WaitingForResponse(identity, noise)];
            ev := None;
          case WaitingForResponse(identity, noise) =>
            ev := Some(OutgoingConnect(ConnectResponse(identity, Some(response), Some(noise))));
        }
      } else {
        ev := None;
      }
    }

    /** The `Close` arm of `poll`. */
    method OnClose(route: RoutingKey, stream: u32) returns (ev: Option<Event>)
      modifies this`outgoing
      ensures CloseOutcome(outgoing, ev) == CloseFrame(route == brokerRoute, old(outgoing), stream)
    {
      ev := None;
      if route == brokerRoute && stream in outgoing {
        var stage := outgoing[stream];
        outgoing := outgoing - {stream};
        ev := Some(OutgoingConnect(ConnectResponse(stage.identity, None, None)));
      }
    }

    /** The `Disconnect` arm of `poll` and the removal after it: the channel goes and its identity is reported. */
    method OnDisconnect(route: RoutingKey) returns (ev: Option<Event>)
      requires Valid()
      modifies this`channels
      ensures Valid()
      ensures channels == old(channels) - {route}
      ensures ev == if route in old(channels) then Some(Disconnect(route, old(channels)[route].identity)) else None
    {
      ev := None;
      if route in channels {
        ev := Some(Disconnect(route, channels[route].identity));
      }
      channels := channels - {route};
    }
  }

  // ---------------------------------------------------------------------
  // Framing of large messages

  /** The largest piece `Stream::message` sends at once. */
  const ChunkSize: nat := 600

  /** `b.chunks(600)`: consecutive pieces of 600 bytes, the last one possibly shorter, none for `[]`. */
  function Chunks(b: seq<u8>): (r: seq<seq<u8>>)
    ensures r == [] <==> b == []
    ensures forall i :: 0 <= i < |r| ==> 0 < |r[i]| <= ChunkSize
    decreases |b|
  {
    if b == [] then []
    else if |b| <= ChunkSize then [b]
    else [b[..ChunkSize]] + Chunks(b[ChunkSize..])
  }

  function Flatten(ss: seq<seq<u8>>): (r: seq<u8>)
    ensures ss == [] ==> r == []
  {
    if ss == [] then [] else ss[0] + Flatten(ss[1..])
  }

  /** The chunks put back together are the message. */
  lemma {:induction false} ChunksFlatten(b: seq<u8>)
    ensures Flatten(Chunks(b)) == b
    decreases |b|
  {
    if |b| > ChunkSize {
      var cs := Chunks(b);
      assert cs[1..] == Chunks(b[ChunkSize..]);
      ChunksFlatten(b[ChunkSize..]);
      assert b == b[..ChunkSize] + b[ChunkSize..];
    } else if b != [] {
      assert Chunks(b)[1..] == [];
    }
  }

  /** There are ⌈|b| / 600⌉ chunks; chunk i covers bytes 600·i up to 600·(i+1) or the end. */
  lemma {:induction false} ChunkAt(b: seq<u8>, i: nat)
    requires i < |Chunks(b)|
    ensures |Chunks(b)| == (|b| + ChunkSize - 1) / ChunkSize
    ensures ChunkSize * i < |b|
    ensures Chunks(b)[i] == b[ChunkSize * i .. if ChunkSize * (i + 1) <= |b| then ChunkSize * (i + 1) else |b|]
    decreases |b|
  {
    if |b| > ChunkSize {
      var t := b[ChunkSize..];
      assert Chunks(b) == [b[..ChunkSize]] + Chunks(t);
      if i > 0 {
        ChunkAt(t, i - 1);
        assert t[ChunkSize * (i - 1) .. if ChunkSize * i <= |t| then ChunkSize * i else |t|]
          == b[ChunkSize * i .. if ChunkSize * (i + 1) <= |b| then ChunkSize * (i + 1) else |b|];
      } else if Chunks(t) != [] {
        ChunkAt(t, 0);
      }
    }
  }

  /** Every chunk holds between 1 and 600 bytes, and all but the last exactly 600. */
  lemma {:induction false} ChunkSizes(b: seq<u8>)
    ensures forall i :: 0 <= i < |Chunks(b)| ==>
      0 < |Chunks(b)[i]| <= ChunkSize && (i < |Chunks(b)| - 1 ==> |Chunks(b)[i]| == ChunkSize)
  {
    forall i | 0 <= i < |Chunks(b)|
      ensures 0 < |Chunks(b)[i]| <= ChunkSize && (i < |Chunks(b)| - 1 ==> |Chunks(b)[i]| == ChunkSize)
    {
      ChunkAt(b, i);
      if i < |Chunks(b)| - 1 {
        ChunkAt(b, i + 1);
      }
    }
  }

  /** The frames a `Stream` has queued on its channel, in order. */
  class Stream {
    const stream: u32
    var sent: seq<seq<u8>>

    constructor (id: u32)
      ensures stream == id && sent == []
    {
      stream := id;
      sent := [];
    }

    /** `Stream::send`. */
    method Send(m: seq<u8>)
      modifies this`sent
      ensures sent == old(sent) + [m]
    {
      sent := sent + [m];
    }

    /**
     * `Stream::message` for an encoded message `b`: a header carrying its
     * length (`encodeHeader` stands for the `ProtoHeader` encoding), then its
     * chunks of at most 600 bytes.
     */
    method Message(b: seq<u8>, encodeHeader: u64 -> seq<u8>)
      requires |b| < 0x1_0000_0000_0000_0000
      modifies this`sent
      ensures sent == old(sent) + [encodeHeader(|b|)] + Chunks(b)
    {
      Send(encodeHeader(|b|));
      var pos := 0;
      while pos < |b|
        invariant 0 <= pos <= |b|
        invariant sent + Chunks(b[pos..]) == old(sent) + [encodeHeader(|b|)] + Chunks(b)
      {
        var end := if pos + ChunkSize <= |b| then pos + ChunkSize else |b|;
        assert Chunks(b[pos..]) == [b[pos..end]] + Chunks(b[end..]) by {
          var s := b[pos..];
          if |s| <= ChunkSize {
            assert s == b[pos..end] && b[end..] == [];
            assert Chunks(s) == [s] + [];
          } else {
            assert s[..ChunkSize] == b[pos..end];
            assert s[ChunkSize..] == b[end..];
          }
        }
        Send(b[pos..end]);
        pos := end;
      }
      assert b[pos..] == [];
    }
  }
}
