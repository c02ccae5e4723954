/** From one member's network card to another's, through the channel in the map: the bridge
    (client/tun/bridge.go), the channel choice (client/core/client.go), the channel's own numbers
    (client/netconn/channel.go), the relay (server/internal/relay/relay.go) and the protocol together. */
module Delivery {
  import opened Vip
  import opened RoomServer
  import opened Frames
  import opened Options
  import opened Membership
  import opened ClientRuns
  import opened Following
  import opened StoredNumbers
  import opened Rounds
  import Channels
  import Relay
  import Bridge

  /** What a send to the peer goes over: its channel, or the relay channel made for want of one. */
  ghost function LineFor(s: Local, b: PeerId, server: Endpoint): Relay.Line
    requires b in s.record.peers
  {
    if b !in s.chans.slots then Relay.Line(server, SelfVIP(s.record), s.record.peers[b].vip, false)
    else match s.chans.slots[b]
      case Relay(src, dst) => Relay.Line(server, src, dst, false)
      case P2P(t) =>
        if t in s.ends then Relay.Line(s.ends[t].addr, s.ends[t].src, s.ends[t].dst, true)
        else Relay.Line(server, 0, 0, true)
  }

  /** A reachable state in which a is a member with nothing under way. */
  ghost predicate Settled(net: Network, states: seq<State>, events: seq<Event>, r: RoomId, a: PeerId) {
    && IsRun(net, states, events) && EveryJoinFindsRoom(states, events)
    && var g := states[|events|];
    && r in g.rooms && a in g.rooms[r] && a in g.clients
    && NoLeave(g.clients[a].up) && g.clients[a].down == []
  }

  /** Data sent on the line comes out of b's network card: the bridge writes it whoever it is from. */
  ghost predicate ReachesCard(net: Network, rooms: Rooms, from: Endpoint, l: Relay.Line, raw: seq<byte>, b: PeerId) {
    exists src :: Relay.Reaches(net, rooms, from, l, Relay.DataKind(l), raw, b, Relay.DataFrom(src, raw))
  }

  /** The sender's number on arrival is the line's own. */
  lemma CardIffOwnNumber(net: Network, rooms: Rooms, from: Endpoint, l: Relay.Line, raw: seq<byte>, b: PeerId)
    requires Relay.Fits(l) && |raw| > 0
    ensures ReachesCard(net, rooms, from, l, raw, b)
       <==> Relay.Reaches(net, rooms, from, l, Relay.DataKind(l), raw, b, Relay.DataFrom(l.src, raw))
  {
    Relay.DispatchOnLine(l, Relay.DataKind(l), raw);
  }

  /** The packet for b is tried once, over b's channel; and it comes out of b's card unchanged exactly when,
      relayed, that channel's number for b is the server's, or, direct, it leads to an endpoint of b; and
      under a's number exactly when the channel's own number is moreover the server's for a. */
  lemma PacketReachesPeerIff(net: Network, states: seq<State>, events: seq<Event>, r: RoomId, a: PeerId, b: PeerId,
                             s: Local, server: Endpoint, raw: seq<byte>, targets: seq<nat>)
    requires Settled(net, states, events, r, a) && s.record == states[|events|].clients[a].view && b in s.record.peers
    requires Bridge.Classify(raw) == Bridge.Unicast(s.record.peers[b].vip)
    requires Bridge.Targets(raw, s.record.peers, SelfVIP(s.record), targets)
    requires Relay.Fits(LineFor(s, b, server))
    ensures targets == [s.record.peers[b].vip]
    ensures forall id :: id in s.record.peers && s.record.peers[id].vip == s.record.peers[b].vip ==> id == b
    ensures var m, l := states[|events|].rooms[r], LineFor(s, b, server);
            var arrives := if l.direct then l.hop in net && net[l.hop] == b else b in m && l.dst == m[b].vip;
            && m[a].vip < VIP_LIMIT
            && (ReachesCard(net, states[|events|].rooms, m[a].addr, l, raw, b) <==> arrives)
            && (Relay.Reaches(net, states[|events|].rooms, m[a].addr, l, Relay.DataKind(l), raw, b,
                              Relay.DataFrom(m[a].vip, raw))
                <==> arrives && l.src == m[a].vip)
  {
    var l := LineFor(s, b, server);
    Relay.DeliveredInEveryRun(net, states, events, r, a, b, l, Relay.DataKind(l), raw);
    CardIffOwnNumber(net, states[|events|].rooms, states[|events|].rooms[r][a].addr, l, raw, b);
    RunKeepsNumbers(net, states, events);
    QuietViewIsExact(net, states, events, r, a);
  }

  // ---------------------------------------------------------------- over whole runs of the client

  /** The client has run from the start, doing what the system's run has it do. */
  ghost predicate Ran(states: seq<State>, events: seq<Event>, a: PeerId, start: Local, acts: seq<Act>)
    requires |events| < |states|
  {
    Start(start) && Legal(start, acts) && Follows(acts, states, events, a)
  }

  /** What a client that follows the system's run has on record, and where its direct channels lead. */
  lemma RanState(net: Network, states: seq<State>, events: seq<Event>, r: RoomId, a: PeerId, b: PeerId, start: Local,
                 acts: seq<Act>, server: Endpoint)
    requires Settled(net, states, events, r, a) && Ran(states, events, a, start, acts)
    requires b in Exec(start, acts).record.peers
    ensures var s := Exec(start, acts);
            && s.record == states[|events|].clients[a].view
            && (Channels.HasP2P(s.chans, b) <==> LineFor(s, b, server).direct)
            && (Channels.HasP2P(s.chans, b) ==>
                  s.chans.slots[b].chan in s.ends
                  && LineFor(s, b, server).hop in net && net[LineFor(s, b, server).hop] == b)
  {
    var s := Exec(start, acts);
    FollowerRecords(net, states, events, a, start, acts);
    StartSound(start);
    ExecKeepsTraced(start, acts);
    if Channels.HasP2P(s.chans, b) {
      var ends := s.ends[s.chans.slots[b].chan];
      assert InfoReaches(net, PeerInfo(b, Info(ends.dst, ends.addr)));
    }
  }

  /** Told by the record alone, for a client that has followed any run of the system: data for b comes out
      of b's card unless it goes over a relay channel whose number for b is not the one on record; and it
      comes under the client's own number exactly if the channel's own number is moreover current. */
  lemma DeliveredIffCurrent(net: Network, states: seq<State>, events: seq<Event>, r: RoomId, a: PeerId, b: PeerId,
                            start: Local, acts: seq<Act>, server: Endpoint, raw: seq<byte>)
    requires Settled(net, states, events, r, a) && Ran(states, events, a, start, acts) && |raw| > 0
    requires b in Exec(start, acts).record.peers && Relay.Fits(LineFor(Exec(start, acts), b, server))
    ensures var s := Exec(start, acts); var m, l := states[|events|].rooms[r], LineFor(s, b, server);
            var arrives := b in s.chans.slots && !Channels.HasP2P(s.chans, b) ==>
                             StoredIn(s, s.chans.slots[b]).dst == s.record.peers[b].vip;
            && m[a].vip < VIP_LIMIT
            && (ReachesCard(net, states[|events|].rooms, m[a].addr, l, raw, b) <==> arrives)
            && (Relay.Reaches(net, states[|events|].rooms, m[a].addr, l, Relay.DataKind(l), raw, b,
                              Relay.DataFrom(m[a].vip, raw))
                <==> arrives && (b in s.chans.slots ==> StoredIn(s, s.chans.slots[b]).src == SelfVIP(s.record)))
  {
    var s := Exec(start, acts);
    var l := LineFor(s, b, server);
    RanState(net, states, events, r, a, b, start, acts, server);
    Relay.DeliveredInEveryRun(net, states, events, r, a, b, l, Relay.DataKind(l), raw);
    CardIffOwnNumber(net, states[|events|].rooms, states[|events|].rooms[r][a].addr, l, raw, b);
  }

  lemma {:induction false} CurrentAtEnd(s: Local, acts: seq<Act>)
    requires Legal(s, acts) && CurrentThroughout(s, acts)
    ensures Current(Exec(s, acts))
    decreases |acts|
  {
    if |acts| > 0 {
      CurrentAtEnd(After(s, acts[0]), acts[1..]);
    }
  }

  /** Current numbers are the server's, which fit. */
  lemma CurrentFits(net: Network, states: seq<State>, events: seq<Event>, r: RoomId, a: PeerId, b: PeerId, s: Local,
                    server: Endpoint)
    requires Settled(net, states, events, r, a) && s.record == states[|events|].clients[a].view
    requires b in s.record.peers && Current(s)
    ensures Relay.Fits(LineFor(s, b, server))
    ensures b in s.chans.slots ==> && StoredIn(s, s.chans.slots[b]).src == SelfVIP(s.record)
                                   && StoredIn(s, s.chans.slots[b]).dst == s.record.peers[b].vip
  {
    QuietViewIsExact(net, states, events, r, a);
    RunKeepsNumbers(net, states, events);
    assert InRange(states[|events|].rooms[r]);
    assert s.record.self.Some?;
  }

  /** Hence a client that has never done a stale act reaches whom it lists, under its own number, whatever
      the channel: through a direct one too, for every endpoint it was told is its owner's. */
  lemma NeverStaleDelivers(net: Network, states: seq<State>, events: seq<Event>, r: RoomId, a: PeerId, b: PeerId,
                           start: Local, acts: seq<Act>, server: Endpoint, raw: seq<byte>)
    requires Settled(net, states, events, r, a) && Ran(states, events, a, start, acts) && NeverStale(start, acts)
    requires b in Exec(start, acts).record.peers && |raw| > 0
    ensures var m, l := states[|events|].rooms[r], LineFor(Exec(start, acts), b, server);
            && m[a].vip < VIP_LIMIT
            && Relay.Reaches(net, states[|events|].rooms, m[a].addr, l, Relay.DataKind(l), raw, b,
                             Relay.DataFrom(m[a].vip, raw))
  {
    RunCurrentIff(start, acts);
    CurrentAtEnd(start, acts);
    RanState(net, states, events, r, a, b, start, acts, server);
    CurrentFits(net, states, events, r, a, b, Exec(start, acts), server);
    DeliveredIffCurrent(net, states, events, r, a, b, start, acts, server, raw);
  }

  // ---------------------------------------------------------------- and one that has

  /** The next newcomer to a room whose n members hold 2 .. n+1 gets n+2. */
  lemma NextNumber(m: Members, n: nat, id: PeerId, addr: Endpoint, now: int)
    requires |m| == n < CAPACITY && id !in m && Used(m) == Interval(VIP_START, n + VIP_START)
    ensures var m' := Step(m, Join(id, addr, now));
            && m' == m[id := Member(n + VIP_START, addr, now)]
            && |m'| == n + 1 && Used(m') == Interval(VIP_START, n + 1 + VIP_START)
  {
    NextJoin(m, Join(id, addr, now), n);
  }

  /** The room once b has come and gone, c has taken its number, and b is back. */
  function Shuffled(a: PeerId, b: PeerId, c: PeerId, x: Endpoint, y: Endpoint, z: Endpoint, now: int): Members {
    map[a := Member(2, x, now), c := Member(3, z, now), b := Member(4, y, now)]
  }

  lemma ShuffledSteps(a: PeerId, b: PeerId, c: PeerId, x: Endpoint, y: Endpoint, z: Endpoint, now: int)
    requires a != b && b != c && a != c
    ensures var m1 := map[a := Member(2, x, now)];
            && JoinStep(map[], a, x, now) == m1
            && JoinStep(m1, b, y, now) == m1[b := Member(3, y, now)] && m1[b := Member(3, y, now)] - {b} == m1
            && JoinStep(m1, c, z, now) == m1[c := Member(3, z, now)]
            && JoinStep(m1[c := Member(3, z, now)], b, y, now) == Shuffled(a, b, c, x, y, z, now)
  {
    assert Used(map[]) == Interval(VIP_START, VIP_START);
    NextNumber(map[], 0, a, x, now);
    var m1 := Step(map[], Join(a, x, now));
    NextNumber(m1, 1, b, y, now);
    NextNumber(m1, 1, c, z, now);
    NextNumber(Step(m1, Join(c, z, now)), 2, b, y, now);
  }

  lemma OnlyListed(peers: seq<PeerInfo>, a: PeerId, info: Info)
    requires IsListing(peers, map[a := info])
    ensures peers == [PeerInfo(a, info)]
  {
    assert PeerInfo(a, info) in peers;
    var last := |peers| - 1;
    assert peers[last] in peers && peers[0] in peers;
    assert last == 0;
  }

  lemma ActsOfMore(me: PeerId, msgs: seq<Msg>, msg: Msg)
    ensures ActsOf(me, msgs + [msg]) == ActsOf(me, msgs) + MessageActs(me, msg)
  {
    assert (msgs + [msg])[..|msgs|] == msgs;
  }

  // What a is told when it joins an empty room.
  function Alone(a: PeerId, mine: Info): Msg {
    RoomStatus([PeerInfo(a, mine)], 0, mine.vip)
  }

  lemma AloneRound(net: Network, r: RoomId, a: PeerId, ids: set<PeerId>, x: Endpoint, now: int)
      returns (states: seq<State>, events: seq<Event>)
    requires a in ids && x in net && net[x] == a && JoinStep(map[], a, x, now) == map[a := Member(2, x, now)]
    ensures Reached(net, states, events, r, map[a := Member(2, x, now)], a, ids, ActsOf(a, [Alone(a, Info(2, x))]))
  {
    var m, mine := map[a := Member(2, x, now)], Info(2, x);
    var outset := Outset(net, r, a, ids);
    var status;
    states, events, status := JoinRound(net, outset, [], r, map[], a, ids, [], a, x, now);
    assert Public(m) == map[a := mine];
    OnlyListed(status.peers, a, mine);
    ActsOfMore(a, [], Alone(a, mine));
    assert [] + [Alone(a, mine)] == [Alone(a, mine)];
    assert MessageActs(a, status) == MessageActs(a, Alone(a, mine));
  }

  lemma FirstRounds(net: Network, r: RoomId, a: PeerId, b: PeerId, ids: set<PeerId>, x: Endpoint, y: Endpoint, now: int)
      returns (states: seq<State>, events: seq<Event>)
    requires a != b && a in ids && b in ids && x in net && net[x] == a && y in net && net[y] == b
    requires var m := map[a := Member(2, x, now)];
             && JoinStep(map[], a, x, now) == m && JoinStep(m, b, y, now) == m[b := Member(3, y, now)]
             && m[b := Member(3, y, now)] - {b} == m
    ensures Reached(net, states, events, r, map[a := Member(2, x, now)], a, ids,
                    ActsOf(a, [Alone(a, Info(2, x)), PeerAddress(PeerInfo(b, Info(3, y))), PeerLeave(b)]))
  {
    var first, told := PeerInfo(b, Info(3, y)), [Alone(a, Info(2, x))];
    var m := map[a := Member(2, x, now)];
    var states1, events1 := AloneRound(net, r, a, ids, x, now);
    var states2, events2, msg := JoinRound(net, states1, events1, r, m, a, ids, ActsOf(a, told), b, y, now);
    assert msg == PeerAddress(first);
    ActsOfMore(a, told, msg);
    states, events := LeaveRound(net, states2, events2, r, m[b := Member(3, y, now)], a, ids,
                                 ActsOf(a, told + [msg]), b, now);
    ActsOfMore(a, told + [msg], PeerLeave(b));
    assert told + [msg] + [PeerLeave(b)] == [Alone(a, Info(2, x)), PeerAddress(first), PeerLeave(b)];
  }

  /** A run of the whole system that leads there, and what it has a do. */
  lemma ShuffledRun(net: Network, r: RoomId, a: PeerId, b: PeerId, c: PeerId, x: Endpoint, y: Endpoint, z: Endpoint,
                    now: int) returns (states: seq<State>, events: seq<Event>)
    requires a != b && b != c && a != c && net == map[x := a, y := b, z := c] && x != y && y != z && x != z
    ensures Reached(net, states, events, r, Shuffled(a, b, c, x, y, z, now), a, {a, b, c},
                    ActsOf(a, ShuffleMessages(a, Info(2, x), PeerInfo(b, Info(3, y)), PeerInfo(c, Info(3, z)),
                                              PeerInfo(b, Info(4, y)))))
  {
    var mine, first := Info(2, x), PeerInfo(b, Info(3, y));
    var other, second := PeerInfo(c, Info(3, z)), PeerInfo(b, Info(4, y));
    var m1 := map[a := Member(2, x, now)];
    var said := [Alone(a, mine), PeerAddress(first), PeerLeave(b)];
    ShuffledSteps(a, b, c, x, y, z, now);
    var states3, events3 := FirstRounds(net, r, a, b, {a, b, c}, x, y, now);
    var states4, events4, msg4 := JoinRound(net, states3, events3, r, m1, a, {a, b, c}, ActsOf(a, said), c, z, now);
    ActsOfMore(a, said, PeerAddress(other));
    var msg5;
    states, events, msg5 := JoinRound(net, states4, events4, r, m1[c := Member(3, z, now)], a, {a, b, c},
                                      ActsOf(a, said + [PeerAddress(other)]), b, y, now);
    ActsOfMore(a, said + [PeerAddress(other)], PeerAddress(second));
    assert ShuffleMessages(a, mine, first, other, second)
        == said + [PeerAddress(other)] + [PeerAddress(second)];
  }

  lemma MisdeliveredLine(net: Network, r: RoomId, m: Members, a: PeerId, b: PeerId, c: PeerId, l: Relay.Line,
                         raw: seq<byte>)
    requires a in m && b in m && c in m && b != c && Unique(m) && InRange(m) && Reachable(net, m) && |raw| > 0
    requires !l.direct && l.src == m[a].vip && l.dst == m[c].vip
    ensures Relay.Reaches(net, map[r := m], m[a].addr, l, FRAME_RELAY, raw, c, Relay.DataFrom(m[a].vip, raw))
    ensures !ReachesCard(net, map[r := m], m[a].addr, l, raw, b)
  {
    Relay.RelayedToHolder(net, map[r := m], r, a, c, l, FRAME_RELAY, raw);
    Relay.ReachesIff(net, map[r := m], r, a, b, l, FRAME_RELAY, raw);
    CardIffOwnNumber(net, map[r := m], m[a].addr, l, raw, b);
  }

  lemma AtRestSettles(net: Network, states: seq<State>, events: seq<Event>, r: RoomId, m: Members, a: PeerId)
    requires Going(net, states, events) && AtRest(states[|events|], r, m, a) && a in m
    ensures Settled(net, states, events, r, a) && states[|events|].rooms == map[r := m]
  {
    assert Placed(states[|events|].clients[a], r, true);
  }

  lemma StaleState(a: PeerId, b: PeerId, c: PeerId, x: Endpoint, y: Endpoint, z: Endpoint, now: int,
                   start: Local, server: Endpoint) returns (acts: seq<Act>)
    requires a != b && b != c && a != c && y != z && Start(start)
    ensures Legal(start, acts) && NothingUnderWay(Exec(start, acts))
    ensures ScriptPart(acts) == ActsOf(a, ShuffleMessages(a, Info(2, x), PeerInfo(b, Info(3, y)),
                                                          PeerInfo(c, Info(3, z)), PeerInfo(b, Info(4, y))))
    ensures var s := Exec(start, acts);
            && s.record == ViewOf(Shuffled(a, b, c, x, y, z, now), a) && b in s.record.peers
            && LineFor(s, b, server) == Relay.Line(server, 2, 3, false)
  {
    var mine, first, second := Info(2, x), PeerInfo(b, Info(3, y)), PeerInfo(b, Info(4, y));
    var other := PeerInfo(c, Info(3, z));
    acts := StaleFallBack(a, start, mine, first, other, second);
    ShuffledView(a, b, c, x, y, z, now);
  }

  lemma ShuffledView(a: PeerId, b: PeerId, c: PeerId, x: Endpoint, y: Endpoint, z: Endpoint, now: int)
    requires a != b && b != c && a != c
    ensures ViewOf(Shuffled(a, b, c, x, y, z, now), a) == View(Some(Info(2, x)), map[c := Info(3, z), b := Info(4, y)])
  {
    assert Public(Shuffled(a, b, c, x, y, z, now)) - {a} == map[c := Info(3, z), b := Info(4, y)];
  }

  lemma ShuffledMisdelivers(net: Network, r: RoomId, a: PeerId, b: PeerId, c: PeerId,
                            x: Endpoint, y: Endpoint, z: Endpoint, now: int, server: Endpoint, raw: seq<byte>)
    requires a != b && b != c && a != c && net == map[x := a, y := b, z := c] && x != y && y != z && x != z
    requires |raw| > 0
    ensures var rooms, l := map[r := Shuffled(a, b, c, x, y, z, now)], Relay.Line(server, 2, 3, false);
            ReachesCard(net, rooms, x, l, raw, c) && !ReachesCard(net, rooms, x, l, raw, b)
  {
    var m, l := Shuffled(a, b, c, x, y, z, now), Relay.Line(server, 2, 3, false);
    MisdeliveredLine(net, r, m, a, b, c, l, raw);
    CardIffOwnNumber(net, map[r := m], x, l, raw, c);
  }

  /** A run of the system and a run of a's that follows it, at the end of which nothing at all is under way
      for a, no message, punch, errand or attempt, and a's record is exactly the server's room; and data a
      sends to b comes out of c's card and not of b's: the stale channel left by two punches to b sends it
      under b's old number, which is c's by now. */
  lemma StaleReachesOther(net: Network, r: RoomId, a: PeerId, b: PeerId, c: PeerId,
                          x: Endpoint, y: Endpoint, z: Endpoint, now: int, start: Local, server: Endpoint,
                          raw: seq<byte>)
      returns (states: seq<State>, events: seq<Event>, acts: seq<Act>)
    requires a != b && b != c && a != c && net == map[x := a, y := b, z := c] && x != y && y != z && x != z
    requires Start(start) && |raw| > 0
    ensures Settled(net, states, events, r, a) && Ran(states, events, a, start, acts)
    ensures NothingUnderWay(Exec(start, acts)) && b in Exec(start, acts).record.peers
    ensures var s := Exec(start, acts); var rooms, l := states[|events|].rooms, LineFor(s, b, server);
            && s.record == ViewOf(rooms[r], a) && !l.direct
            && ReachesCard(net, rooms, x, l, raw, c) && !ReachesCard(net, rooms, x, l, raw, b)
  {
    var m := Shuffled(a, b, c, x, y, z, now);
    states, events := ShuffledRun(net, r, a, b, c, x, y, z, now);
    acts := StaleState(a, b, c, x, y, z, now, start, server);
    AtRestSettles(net, states, events, r, m, a);
    ShuffledMisdelivers(net, r, a, b, c, x, y, z, now, server, raw);
  }
}
