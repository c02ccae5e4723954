/** The traffic relay (server/internal/relay/relay.go), the sending and receiving ends of a relayed
    frame (client/netconn/channel.go, client/core/client.go), and end-to-end delivery between two
    members of a room, composed with the membership protocol. */
module Relay {
  import opened Vip
  import opened RoomServer
  import opened Frames
  import Membership
  import Channels

  // What the relay does with a datagram: nothing, or pass bytes on to an endpoint.
  datatype Forward = Nothing | To(addr: Endpoint, data: seq<byte>)

  /** The frame kinds the server passes on. */
  predicate Relayed(frameType: byte) {
    frameType == FRAME_RELAY || frameType == FRAME_VOICE
  }

  /** A possible answer to a frame routed inside room m. */
  ghost predicate RoutedIn(m: Members, dstVIP: uint32, raw: seq<byte>, out: Forward) {
    if dstVIP in Used(m) then exists id :: LookupAnswer(m, dstVIP, id) && out == To(m[id].addr, raw)
    else out == Nothing
  }

  /** What the relay may answer: an error for bytes that are no frame; nothing for other kinds of
      frame or an unknown sender; else some room of the sender's endpoint decides. */
  ghost predicate Routed(rooms: Rooms, remote: Endpoint, raw: seq<byte>, out: Result<Forward>) {
    match DecodeFrame(raw)
    case Err(e) => out == Err(e)
    case Ok(f) =>
      if !Relayed(f.frameType) || forall r :: r in rooms ==> !AddrIn(rooms[r], remote) then out == Ok(Nothing)
      else out.Ok? && exists r :: r in rooms && AddrIn(rooms[r], remote) && RoutedIn(rooms[r], f.dstVIP, raw, out.value)
  }

  lemma AnswerIsRouted(rooms: Rooms, r: RoomId, remote: Endpoint, raw: seq<byte>, out: Forward)
    requires r in rooms && AddrIn(rooms[r], remote) && DecodeFrame(raw).Ok? && Relayed(DecodeFrame(raw).value.frameType)
    requires RoutedIn(rooms[r], DecodeFrame(raw).value.dstVIP, raw, out)
    ensures Routed(rooms, remote, raw, Ok(out))
  {
  }

  lemma ForwardedWithinRoom(rooms: Rooms, remote: Endpoint, raw: seq<byte>, out: Result<Forward>)
    requires Routed(rooms, remote, raw, out) && out.Ok? && out.value.To?
    ensures out.value.data == raw && DecodeFrame(raw).Ok? && Relayed(DecodeFrame(raw).value.frameType)
    ensures exists r, id ::
      && r in rooms && AddrIn(rooms[r], remote)
      && LookupAnswer(rooms[r], DecodeFrame(raw).value.dstVIP, id) && out.value.addr == rooms[r][id].addr
  {
    var dst := DecodeFrame(raw).value.dstVIP;
    var r :| r in rooms && AddrIn(rooms[r], remote) && RoutedIn(rooms[r], dst, raw, out.value);
    var id :| LookupAnswer(rooms[r], dst, id) && out.value.addr == rooms[r][id].addr;
  }

  class RelayHandler {
    const mgr: Manager

    constructor (mgr: Manager)
      ensures this.mgr == mgr
    {
      this.mgr := mgr;
    }

    /** Route a compact frame by its sender's endpoint and its destination number. It fails exactly for
        bytes without the magic or a whole header, whoever sent them. Whatever the state of the rooms, a
        forwarded datagram is the received one, and its addressee shares a room with the sender's endpoint
        and holds the destination number there. */
    method HandleCompactFrame(remote: Endpoint, raw: seq<byte>) returns (out: Result<Forward>)
      requires mgr.Valid()
      ensures Routed(mgr.View(), remote, raw, out)
      ensures out.Ok? <==> IsCompactFrame(raw) && |raw| >= FRAME_HEADER_SIZE
      ensures out == Err(ErrBadMagic) <==> |raw| >= FRAME_HEADER_SIZE && !IsCompactFrame(raw)
      ensures out.Ok? && raw[2] != 2 && raw[2] != 3 ==> out == Ok(Nothing)
      ensures out.Ok? && out.value.To? ==> out.value.data == raw && exists r, id ::
        && r in mgr.View() && AddrIn(mgr.View()[r], remote)
        && LookupAnswer(mgr.View()[r], DecodeFrame(raw).value.dstVIP, id) && out.value.addr == mgr.View()[r][id].addr
    {
      var decoded := DecodeFrame(raw);
      if decoded.Err? {
        return Err(decoded.error);
      }
      var f := decoded.value;
      if f.frameType != FRAME_RELAY && f.frameType != FRAME_VOICE {
        return Ok(Nothing);
      }
      var rm := mgr.LookupByAddr(remote);
      if rm == null {
        return Ok(Nothing);
      }
      var forward := ForwardIn(rm, f.dstVIP, raw);
      AnswerIsRouted(mgr.View(), rm.id, remote, raw, forward);
      out := Ok(forward);
      if forward.To? {
        ForwardedWithinRoom(mgr.View(), remote, raw, out);
      }
    }

    method ForwardIn(rm: Room, dstVIP: uint32, raw: seq<byte>) returns (out: Forward)
      requires rm.Valid()
      ensures RoutedIn(rm.View(), dstVIP, raw, out)
    {
      var target := rm.GetPeerByVip(dstVIP);
      if target == null {
        return Nothing;
      }
      assert rm.View()[target.id].vip == dstVIP;
      out := To(target.addr, raw);
    }
  }

  // ---------------------------------------------------------------- the two ends

  // What a channel sends with: where to, and the numbers it was made with.
  datatype Line = Line(hop: Endpoint, src: nat, dst: nat, direct: bool)

  type Chan = Channels.Channel<Channels.P2PChannel>

  /** A relay channel sends to the server, a direct one to the endpoint it was made for. */
  function LineOf(ch: Chan, server: Endpoint): Line {
    match ch
    case Relay(src, dst) => Line(server, src, dst, false)
    case P2P(t) => Line(t.peerAddr, t.srcVIP, t.dstVIP, true)
  }

  /** Host numbers travel as 32-bit words. */
  function Word(n: nat): uint32 {
    n % 0x1_0000_0000
  }

  predicate Fits(l: Line) {
    l.src < 0x1_0000_0000 && l.dst < 0x1_0000_0000
  }

  function FrameOn(l: Line, frameType: byte, payload: seq<byte>): seq<byte> {
    FrameBytes(Frame(frameType, Word(l.src), Word(l.dst), payload))
  }

  /** The frame kind of plain data on a channel. */
  function DataKind(l: Line): byte {
    if l.direct then FRAME_P2P else FRAME_RELAY
  }

  datatype Outgoing = Outgoing(to: Endpoint, data: seq<byte>)

  /** SendTyped: a frame with the channel's own numbers, to its own destination. */
  method SendTyped(ch: Chan, server: Endpoint, frameType: byte, data: seq<byte>) returns (out: Outgoing)
    ensures var l := LineOf(ch, server); out == Outgoing(l.hop, FrameOn(l, frameType, data))
  {
    match ch {
      case Relay(src, dst) =>
        var buf := EncodeFrame(frameType, Word(src), Word(dst), data);
        out := Outgoing(server, buf[..]);
      case P2P(t) =>
        var buf := EncodeFrame(frameType, Word(t.srcVIP), Word(t.dstVIP), data);
        out := Outgoing(t.peerAddr, buf[..]);
    }
  }

  /** Send: plain data, in the channel's own kind of frame. */
  method Send(ch: Chan, server: Endpoint, data: seq<byte>) returns (out: Outgoing)
    ensures var l := LineOf(ch, server); out == Outgoing(l.hop, FrameOn(l, DataKind(l), data))
  {
    out := SendTyped(ch, server, if ch.P2P? then FRAME_P2P else FRAME_RELAY, data);
  }

  datatype Delivery =
    | Dropped
    | PingFrom(src: uint32, payload: seq<byte>)
    | PongFrom(src: uint32, payload: seq<byte>)
    | VoiceFrom(src: uint32, payload: seq<byte>)
    | DataFrom(src: uint32, payload: seq<byte>)

  /** The client's dispatch of a received compact frame. */
  function Dispatch(data: seq<byte>): Delivery {
    var decoded := DecodeFrame(data);
    if decoded.Err? || |decoded.value.payload| == 0 then Dropped
    else
      var f := decoded.value;
      if f.frameType == FRAME_PING then PingFrom(f.srcVIP, f.payload)
      else if f.frameType == FRAME_PONG then PongFrom(f.srcVIP, f.payload)
      else if f.frameType == FRAME_VOICE then VoiceFrom(f.srcVIP, f.payload)
      else DataFrom(f.srcVIP, f.payload)
  }

  // ---------------------------------------------------------------- what routing guarantees

  ghost predicate InOneRoom(rooms: Rooms, addr: Endpoint) {
    forall r, q :: r in rooms && q in rooms && AddrIn(rooms[r], addr) && AddrIn(rooms[q], addr) ==> r == q
  }

  /** All answers to a frame from the endpoint agree. */
  ghost predicate Determined(rooms: Rooms, remote: Endpoint, raw: seq<byte>) {
    forall a, b :: Routed(rooms, remote, raw, a) && Routed(rooms, remote, raw, b) ==> a == b
  }

  /** Of all frames from members exactly those of kinds 2 and 3, data and voice, may be passed on: to any
      holder of their number, as they are. Direct data, probes and echoes (kinds 1, 4 and 5) never are. */
  lemma ForwardedKinds(rooms: Rooms, r: RoomId, remote: Endpoint, raw: seq<byte>, id: PeerId)
    requires DecodeFrame(raw).Ok? && r in rooms && AddrIn(rooms[r], remote)
    requires LookupAnswer(rooms[r], DecodeFrame(raw).value.dstVIP, id)
    ensures Routed(rooms, remote, raw, Ok(To(rooms[r][id].addr, raw))) <==> raw[2] == 2 || raw[2] == 3
  {
    assert rooms[r][id].vip in Used(rooms[r]);
    assert RoutedIn(rooms[r], DecodeFrame(raw).value.dstVIP, raw, To(rooms[r][id].addr, raw));
  }

  lemma OtherKindsDropped(rooms: Rooms, remote: Endpoint, src: uint32, dst: uint32, payload: seq<byte>, kind: byte,
                          out: Result<Forward>)
    requires kind in {1, 4, 5}
    ensures Routed(rooms, remote, FrameBytes(Frame(kind, src, dst, payload)), out) <==> out == Ok(Nothing)
  {
    DecodeEncodedFrame(Frame(kind, src, dst, payload));
  }

  /** With the sender in one room and numbers distinct there, the one possible answer is the holder
      of the number. */
  lemma RoutedToHolder(rooms: Rooms, r: RoomId, remote: Endpoint, raw: seq<byte>, id: PeerId, out: Result<Forward>)
    requires r in rooms && AddrIn(rooms[r], remote) && InOneRoom(rooms, remote) && Unique(rooms[r])
    requires DecodeFrame(raw).Ok? && DecodeFrame(raw).value.frameType in {FRAME_RELAY, FRAME_VOICE}
    requires LookupAnswer(rooms[r], DecodeFrame(raw).value.dstVIP, id)
    ensures Routed(rooms, remote, raw, out) <==> out == Ok(To(rooms[r][id].addr, raw))
  {
    var dst := DecodeFrame(raw).value.dstVIP;
    assert rooms[r][id].vip in Used(rooms[r]);
    if out == Ok(To(rooms[r][id].addr, raw)) {
      assert RoutedIn(rooms[r], dst, raw, out.value);
    }
  }

  /** Neither assumption can go: two holders of the number with different endpoints, be it in two
      rooms that both hold the sender's endpoint or in the same room, leave the answer open. */
  lemma TwoHoldersAmbiguous(rooms: Rooms, r: RoomId, q: RoomId, remote: Endpoint, raw: seq<byte>, a: PeerId, b: PeerId)
    requires r in rooms && q in rooms && AddrIn(rooms[r], remote) && AddrIn(rooms[q], remote)
    requires DecodeFrame(raw).Ok? && DecodeFrame(raw).value.frameType in {FRAME_RELAY, FRAME_VOICE}
    requires LookupAnswer(rooms[r], DecodeFrame(raw).value.dstVIP, a)
    requires LookupAnswer(rooms[q], DecodeFrame(raw).value.dstVIP, b)
    requires rooms[r][a].addr != rooms[q][b].addr
    ensures !Determined(rooms, remote, raw)
  {
    var dst := DecodeFrame(raw).value.dstVIP;
    var x, y := To(rooms[r][a].addr, raw), To(rooms[q][b].addr, raw);
    assert rooms[r][a].vip in Used(rooms[r]) && rooms[q][b].vip in Used(rooms[q]);
    assert RoutedIn(rooms[r], dst, raw, x) && RoutedIn(rooms[q], dst, raw, y);
    assert Routed(rooms, remote, raw, Ok(x)) && Routed(rooms, remote, raw, Ok(y));
  }

  /** A non-empty payload sent by a to b over its relay channel: one datagram, byte for byte, to b's
      current endpoint, where it goes to the voice handler or the data handler with a's number. */
  lemma EndToEnd(rooms: Rooms, r: RoomId, a: PeerId, b: PeerId, frameType: byte, payload: seq<byte>,
                 out: Result<Forward>)
    requires r in rooms && a in rooms[r] && b in rooms[r] && Unique(rooms[r]) && InRange(rooms[r])
    requires InOneRoom(rooms, rooms[r][a].addr)
    requires (frameType == FRAME_RELAY || frameType == FRAME_VOICE) && |payload| > 0
    requires Routed(rooms, rooms[r][a].addr,
                    FrameBytes(Frame(frameType, rooms[r][a].vip, rooms[r][b].vip, payload)), out)
    ensures var raw := FrameBytes(Frame(frameType, rooms[r][a].vip, rooms[r][b].vip, payload));
            && out == Ok(To(rooms[r][b].addr, raw))
            && Dispatch(raw) == if frameType == FRAME_VOICE then VoiceFrom(rooms[r][a].vip, payload)
                                else DataFrom(rooms[r][a].vip, payload)
  {
    var f := Frame(frameType, rooms[r][a].vip, rooms[r][b].vip, payload);
    DecodeEncodedFrame(f);
    RoutedToHolder(rooms, r, rooms[r][a].addr, FrameBytes(f), b, out);
  }

  /** Over a direct channel nothing is in between: a probe comes out as a probe with its time, an echo
      as an echo, voice and data at their handlers, and an empty payload nowhere. */
  lemma DirectDelivery(frameType: byte, src: uint32, dst: uint32, payload: seq<byte>, ts: int64)
    ensures var probe := LE(ToUint64(ts), PING_PAYLOAD_SIZE);
            && Dispatch(FrameBytes(Frame(FRAME_PING, src, dst, probe))) == PingFrom(src, probe)
            && Dispatch(FrameBytes(Frame(FRAME_PONG, src, dst, probe))) == PongFrom(src, probe)
            && DecodePingTS(probe) == TS(ts)
    ensures |payload| > 0 ==>
              && Dispatch(FrameBytes(Frame(FRAME_VOICE, src, dst, payload))) == VoiceFrom(src, payload)
              && Dispatch(FrameBytes(Frame(FRAME_P2P, src, dst, payload))) == DataFrom(src, payload)
    ensures Dispatch(FrameBytes(Frame(frameType, src, dst, []))) == Dropped
    ensures |payload| < 12 || payload[0] != 'N' as int || payload[1] != 'B' as int ==> Dispatch(payload) == Dropped
    ensures |payload| > 0 && frameType !in {3, 4, 5} ==>
              Dispatch(FrameBytes(Frame(frameType, src, dst, payload))) == DataFrom(src, payload)
  {
    DecodeEncodedFrame(Frame(frameType, src, dst, payload));
    var probe := LE(ToUint64(ts), PING_PAYLOAD_SIZE);
    DecodeEncodedFrame(Frame(FRAME_PONG, src, dst, probe));
    ProbeRoundTrip(FRAME_PING, src, dst, ts, []);
    assert probe + [] == probe;
    DecodeEncodedFrame(Frame(FRAME_VOICE, src, dst, payload));
    DecodeEncodedFrame(Frame(FRAME_P2P, src, dst, payload));
    DecodeEncodedFrame(Frame(frameType, src, dst, []));
  }

  // ---------------------------------------------------------------- composed with the protocol

  /** Endpoints that reach one client each put every sender in one room. */
  lemma OwnersInOneRoom(net: Membership.Network, s: Membership.State, addr: Endpoint)
    requires Membership.OneRoom(s) && Membership.Owned(net, s)
    ensures InOneRoom(s.rooms, addr)
  {
    forall r, q | r in s.rooms && q in s.rooms && AddrIn(s.rooms[r], addr) && AddrIn(s.rooms[q], addr) ensures r == q {
      var a :| a in s.rooms[r] && s.rooms[r][a].addr == addr;
      var b :| b in s.rooms[q] && s.rooms[q][b].addr == addr;
      assert Membership.Reachable(net, s.rooms[r]) && Membership.Reachable(net, s.rooms[q]);
    }
  }

  function Handed(frameType: byte, src: uint32, payload: seq<byte>): Delivery {
    if frameType == FRAME_VOICE then VoiceFrom(src, payload) else DataFrom(src, payload)
  }

  /** What goes out on the line from an endpoint ends at client b, which is handed d: at once for a direct
      line, else whatever the server may answer. */
  ghost predicate Reaches(net: Membership.Network, rooms: Rooms, from: Endpoint, l: Line, frameType: byte,
                          payload: seq<byte>, b: PeerId, d: Delivery) {
    var raw := FrameOn(l, frameType, payload);
    && Dispatch(raw) == d
    && if l.direct then l.hop in net && net[l.hop] == b
       else forall out :: Routed(rooms, from, raw, out) ==>
              out.Ok? && out.value.To? && out.value.data == raw && out.value.addr in net && net[out.value.addr] == b
  }

  lemma DispatchOnLine(l: Line, frameType: byte, payload: seq<byte>)
    requires Fits(l) && |payload| > 0
    requires frameType == FRAME_VOICE || frameType == if l.direct then FRAME_P2P else FRAME_RELAY
    ensures DecodeFrame(FrameOn(l, frameType, payload)) == Ok(Frame(frameType, l.src, l.dst, payload))
    ensures Dispatch(FrameOn(l, frameType, payload)) == Handed(frameType, l.src, payload)
  {
    DecodeEncodedFrame(Frame(frameType, Word(l.src), Word(l.dst), payload));
  }

  /** A relayed frame goes to the member that holds the line's number, whoever the sender meant. */
  lemma RelayedToHolder(net: Membership.Network, rooms: Rooms, r: RoomId, a: PeerId, c: PeerId, l: Line,
                        frameType: byte, payload: seq<byte>)
    requires r in rooms && a in rooms[r] && c in rooms[r] && Unique(rooms[r])
    requires InOneRoom(rooms, rooms[r][a].addr) && Membership.Reachable(net, rooms[r])
    requires !l.direct && Fits(l) && |payload| > 0 && l.dst == rooms[r][c].vip
    requires frameType == FRAME_RELAY || frameType == FRAME_VOICE
    ensures Reaches(net, rooms, rooms[r][a].addr, l, frameType, payload, c, Handed(frameType, l.src, payload))
  {
    var raw := FrameOn(l, frameType, payload);
    DispatchOnLine(l, frameType, payload);
    forall out | Routed(rooms, rooms[r][a].addr, raw, out) ensures out == Ok(To(rooms[r][c].addr, raw)) {
      RoutedToHolder(rooms, r, rooms[r][a].addr, raw, c, out);
    }
  }

  /** A relayed frame whose number nobody holds goes nowhere. */
  lemma NoHolderNothing(rooms: Rooms, r: RoomId, remote: Endpoint, raw: seq<byte>)
    requires r in rooms && AddrIn(rooms[r], remote) && DecodeFrame(raw).Ok?
    requires DecodeFrame(raw).value.frameType in {FRAME_RELAY, FRAME_VOICE}
    requires DecodeFrame(raw).value.dstVIP !in Used(rooms[r])
    ensures Routed(rooms, remote, raw, Ok(Nothing))
  {
    AnswerIsRouted(rooms, r, remote, raw, Nothing);
  }

  /** Delivery through a channel, with the numbers it was made with: what a sends on the line reaches b
      exactly when, relayed, the line's number for b is the server's, or, direct, its endpoint is b's; and
      it does so under a's number exactly when the line's own number is moreover the server's for a. */
  lemma ReachesIff(net: Membership.Network, rooms: Rooms, r: RoomId, a: PeerId, b: PeerId, l: Line,
                   frameType: byte, payload: seq<byte>)
    requires r in rooms && a in rooms[r] && b in rooms[r] && Unique(rooms[r]) && InRange(rooms[r])
    requires InOneRoom(rooms, rooms[r][a].addr) && Membership.Reachable(net, rooms[r])
    requires Fits(l) && |payload| > 0
    requires frameType == FRAME_VOICE || frameType == if l.direct then FRAME_P2P else FRAME_RELAY
    ensures Reaches(net, rooms, rooms[r][a].addr, l, frameType, payload, b, Handed(frameType, rooms[r][a].vip, payload))
       <==> && l.src == rooms[r][a].vip
            && if l.direct then l.hop in net && net[l.hop] == b else l.dst == rooms[r][b].vip
    ensures Reaches(net, rooms, rooms[r][a].addr, l, frameType, payload, b, Handed(frameType, l.src, payload))
       <==> if l.direct then l.hop in net && net[l.hop] == b else l.dst == rooms[r][b].vip
  {
    var m, raw := rooms[r], FrameOn(l, frameType, payload);
    DispatchOnLine(l, frameType, payload);
    if !l.direct {
      if l.dst in Used(m) {
        var c :| c in m && m[c].vip == l.dst;
        RelayedToHolder(net, rooms, r, a, c, l, frameType, payload);
        RoutedToHolder(rooms, r, m[a].addr, raw, c, Ok(To(m[c].addr, raw)));
      } else {
        NoHolderNothing(rooms, r, m[a].addr, raw);
      }
    }
  }

  /** Over any run of the protocol in which every newcomer finds room: what a member with nothing under
      way sends to a peer it lists, on any line, reaches that peer if and only if, relayed, the line's
      number for the peer is the one on record, or, direct, its endpoint is the peer's; and under the
      sender's number if and only if moreover its own number is the one on record. */
  lemma DeliveredInEveryRun(net: Membership.Network, states: seq<Membership.State>, events: seq<Membership.Event>,
                            r: RoomId, a: PeerId, b: PeerId, l: Line, frameType: byte, payload: seq<byte>)
    requires Membership.IsRun(net, states, events) && Membership.EveryJoinFindsRoom(states, events)
    requires var s := states[|events|];
             && r in s.rooms && a in s.rooms[r] && a in s.clients
             && Membership.NoLeave(s.clients[a].up) && s.clients[a].down == [] && b in s.clients[a].view.peers
    requires Fits(l) && |payload| > 0
    requires frameType == FRAME_VOICE || frameType == if l.direct then FRAME_P2P else FRAME_RELAY
    ensures var s := states[|events|]; var v := s.clients[a].view;
            && b in s.rooms[r] && v.self.Some? && v.self.value.vip < VIP_LIMIT
            && v.self.value == Membership.Info(s.rooms[r][a].vip, s.rooms[r][a].addr)
            && v.peers[b] == Membership.Info(s.rooms[r][b].vip, s.rooms[r][b].addr)
            && (Reaches(net, s.rooms, v.self.value.addr, l, frameType, payload, b,
                        Handed(frameType, v.self.value.vip, payload))
                <==> && l.src == v.self.value.vip
                     && if l.direct then l.hop in net && net[l.hop] == b else l.dst == v.peers[b].vip)
            && (Reaches(net, s.rooms, v.self.value.addr, l, frameType, payload, b, Handed(frameType, l.src, payload))
                <==> if l.direct then l.hop in net && net[l.hop] == b else l.dst == v.peers[b].vip)
  {
    var s := states[|events|];
    Membership.RunKeepsInv(net, states, events);
    Membership.QuietViewIsExact(net, states, events, r, a);
    Membership.RunKeepsNumbers(net, states, events);
    OwnersInOneRoom(net, s, s.rooms[r][a].addr);
    assert Membership.Reachable(net, s.rooms[r]);
    ReachesIff(net, s.rooms, r, a, b, l, frameType, payload);
  }
}
