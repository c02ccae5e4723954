/** The snapshot-plus-delta membership protocol between the room server and its clients
    (server/internal/signaling/signaling.go, client/core/client.go, client/peer/manager.go), as a
    step system: server handlers run one at a time, and each client's uplink and downlink deliver
    in order without loss. */
module Membership {
  import opened Vip
  import opened RoomServer
  import opened Options

  // What a client keeps of a peer: its number and endpoint.
  datatype Info = Info(vip: nat, addr: Endpoint)
  type Table = map<PeerId, Info>
  datatype PeerInfo = PeerInfo(id: PeerId, info: Info)

  datatype Msg =
    | RoomStatus(peers: seq<PeerInfo>, localIndex: int, localVip: nat)
    | PeerAddress(peer: PeerInfo)
    | PeerLeave(id: PeerId)

  datatype Datagram = Datagram(to: Endpoint, msg: Msg)

  datatype View = View(self: Option<Info>, peers: Table)

  const EMPTY_VIEW := View(None, map[])

  ghost function Public(m: Members): Table {
    map id | id in m :: Info(m[id].vip, m[id].addr)
  }

  // ---------------------------------------------------------------- what a client does with a message

  function ApplyStatus(me: PeerId, peers: seq<PeerInfo>): View {
    if |peers| == 0 then EMPTY_VIEW
    else
      var v := ApplyStatus(me, peers[..|peers| - 1]);
      var p := peers[|peers| - 1];
      if p.id == me then v.(self := Some(p.info)) else v.(peers := v.peers[p.id := p.info])
  }

  function Apply(me: PeerId, v: View, msg: Msg): View {
    match msg
    case RoomStatus(peers, _, _) => ApplyStatus(me, peers)
    case PeerAddress(p) => v.(peers := v.peers[p.id := p.info])
    case PeerLeave(id) => v.(peers := v.peers - {id})
  }

  function ApplyAll(me: PeerId, v: View, msgs: seq<Msg>): View {
    if |msgs| == 0 then v else Apply(me, ApplyAll(me, v, msgs[..|msgs| - 1]), msgs[|msgs| - 1])
  }

  // ---------------------------------------------------------------- what the server does with a request

  ghost function JoinRooms(rooms: Rooms, r: RoomId, id: PeerId, addr: Endpoint, now: int): Rooms {
    rooms[r := JoinStep(if r in rooms then rooms[r] else map[], id, addr, now)]
  }

  ghost function LeaveRooms(rooms: Rooms, r: RoomId, id: PeerId): Rooms {
    if r !in rooms then rooms
    else if rooms[r] - {id} == map[] then rooms - {r}
    else rooms[r := rooms[r] - {id}]
  }

  ghost function TouchRooms(rooms: Rooms, r: RoomId, id: PeerId, now: int): Rooms {
    if r in rooms then rooms[r := TouchStep(rooms[r], id, now)] else rooms
  }

  /** peers lists the table, each member once. */
  ghost predicate IsListing(peers: seq<PeerInfo>, t: Table) {
    && (forall p :: p in peers <==> p.id in t && t[p.id] == p.info)
    && (forall i, j :: 0 <= i < j < |peers| ==> peers[i].id != peers[j].id)
  }

  function SendAll(order: seq<PeerId>, t: Table, msg: Msg): (sent: seq<Datagram>)
    requires forall i :: 0 <= i < |order| ==> order[i] in t
    ensures |sent| == |order|
  {
    if |order| == 0 then []
    else SendAll(order[..|order| - 1], t, msg) + [Datagram(t[order[|order| - 1]].addr, msg)]
  }

  /** sent carries msg once to the endpoint of every member of t, in some order. */
  ghost predicate IsBroadcast(sent: seq<Datagram>, t: Table, msg: Msg) {
    exists order: seq<PeerId> :: Enumerates(order, t.Keys) && sent == SendAll(order, t, msg)
  }

  /** The replies to a join: the room's listing to the newcomer, its address to everyone else. */
  ghost predicate JoinReplies(sent: seq<Datagram>, t: Table, id: PeerId, remote: Endpoint)
    requires id in t
  {
    && |sent| > 0
    && sent[0].to == remote && sent[0].msg.RoomStatus?
    && IsListing(sent[0].msg.peers, t) && sent[0].msg.localVip == t[id].vip
    && 0 <= sent[0].msg.localIndex < |sent[0].msg.peers| && sent[0].msg.peers[sent[0].msg.localIndex].id == id
    && IsBroadcast(sent[1..], t - {id}, PeerAddress(PeerInfo(id, Info(t[id].vip, remote))))
  }

  ghost predicate LeaveReplies(sent: seq<Datagram>, rooms: Rooms, r: RoomId, id: PeerId) {
    if r in rooms then IsBroadcast(sent, Public(rooms[r] - {id}), PeerLeave(id)) else sent == []
  }

  /** One broadcast of PeerLeave per removed member, in the order of the scan's report, to the
      survivors of its room; none if the room is gone. */
  ghost predicate ScanReplies(batches: seq<seq<Datagram>>, rooms: Rooms, report: seq<(RoomId, PeerId)>) {
    && |batches| == |report|
    && forall i :: 0 <= i < |report| ==> ScanReply(batches[i], rooms, report[i].0, report[i].1)
  }

  ghost predicate ScanReply(sent: seq<Datagram>, rooms: Rooms, r: RoomId, id: PeerId) {
    if r in rooms then IsBroadcast(sent, Public(rooms[r]), PeerLeave(id)) else sent == []
  }

  function Flat(batches: seq<seq<Datagram>>): seq<Datagram> {
    if |batches| == 0 then [] else Flat(batches[..|batches| - 1]) + batches[|batches| - 1]
  }

  // ---------------------------------------------------------------- the system

  datatype Request =
    | JoinRequest(room: RoomId, from: Endpoint)
    | LeaveRequest(room: RoomId)
    | PingRequest(room: RoomId)

  datatype Client = Client(view: View, room: Option<RoomId>, up: seq<Request>, down: seq<Msg>)
  datatype State = State(rooms: Rooms, clients: map<PeerId, Client>)

  /** Which client an endpoint reaches. */
  type Network = map<Endpoint, PeerId>

  /** The messages among sent that reach the client, in order. */
  function Received(net: Network, me: PeerId, sent: seq<Datagram>): seq<Msg> {
    if |sent| == 0 then []
    else
      var before := Received(net, me, sent[..|sent| - 1]);
      var d := sent[|sent| - 1];
      if d.to in net && net[d.to] == me then before + [d.msg] else before
  }

  function Arrive(net: Network, clients: map<PeerId, Client>, sent: seq<Datagram>): map<PeerId, Client> {
    map id | id in clients :: clients[id].(down := clients[id].down + Received(net, id, sent))
  }

  datatype Event =
    | ClientJoins(id: PeerId, room: RoomId, from: Endpoint)
    | ClientPings(id: PeerId)
    | ClientLeaves(id: PeerId)
    | ClientReceives(id: PeerId)
    | ServerHandles(id: PeerId, now: int, sent: seq<Datagram>)
    | ServerScans(now: int, timeout: int, report: seq<(RoomId, PeerId)>, batches: seq<seq<Datagram>>)

  ghost predicate Init(s: State) {
    && s.rooms == map[]
    && forall id :: id in s.clients ==> s.clients[id] == Client(EMPTY_VIEW, None, [], [])
  }

  ghost predicate Next(net: Network, s: State, e: Event, s': State) {
    match e
    case ClientJoins(id, r, from) =>
      && id in s.clients && from in net && net[from] == id
      && var c := s.clients[id];
      && (c.room == None || c.room == Some(r))
      && s' == s.(clients := s.clients[id := c.(room := Some(r), up := c.up + [JoinRequest(r, from)])])
    case ClientPings(id) =>
      && id in s.clients && s.clients[id].room.Some?
      && var c := s.clients[id];
      && s' == s.(clients := s.clients[id := c.(up := c.up + [PingRequest(c.room.value)])])
    case ClientLeaves(id) =>
      && id in s.clients
      && var c := s.clients[id];
      && var up := if c.room.Some? then c.up + [LeaveRequest(c.room.value)] else c.up;
      && s' == s.(clients := s.clients[id := c.(view := EMPTY_VIEW, room := None, up := up)])
    case ClientReceives(id) =>
      && id in s.clients && |s.clients[id].down| > 0
      && var c := s.clients[id];
      && s' == s.(clients := s.clients[id := c.(view := Apply(id, c.view, c.down[0]), down := c.down[1..])])
    case ServerHandles(id, now, sent) =>
      && id in s.clients && |s.clients[id].up| > 0
      && var c := s.clients[id];
      && var taken := s.clients[id := c.(up := c.up[1..])];
      && s'.clients == Arrive(net, taken, sent)
      && Handled(s.rooms, id, c.up[0], now, sent, s'.rooms)
    case ServerScans(now, timeout, report, batches) =>
      && s'.rooms == ScanRooms(s.rooms, now, timeout)
      && Reports(report, SilentIn(s.rooms, now, timeout))
      && ScanReplies(batches, s'.rooms, report)
      && s'.clients == Arrive(net, s.clients, Flat(batches))
  }

  /** One request handled by the server: the rooms after it and the datagrams it sends. */
  ghost predicate Handled(rooms: Rooms, id: PeerId, req: Request, now: int, sent: seq<Datagram>, rooms': Rooms) {
    match req
    case JoinRequest(r, from) =>
      rooms' == JoinRooms(rooms, r, id, from, now) && JoinReplies(sent, Public(rooms'[r]), id, from)
    case LeaveRequest(r) =>
      rooms' == LeaveRooms(rooms, r, id) && LeaveReplies(sent, rooms, r, id)
    case PingRequest(r) =>
      rooms' == TouchRooms(rooms, r, id, now) && sent == []
  }

  // ---------------------------------------------------------------- the invariant

  ghost predicate NoLeave(up: seq<Request>) {
    forall i :: 0 <= i < |up| ==> !up[i].LeaveRequest?
  }

  /** Starting from where the server has the client, its pending requests never join a second room
      before leaving the first, and end where the client believes to be (or nowhere, if timed out). */
  ghost predicate Tidy(at: Option<RoomId>, up: seq<Request>, last: Option<RoomId>)
    decreases |up|
  {
    if |up| == 0 then at == None || at == last
    else match up[0]
      case JoinRequest(r, _) => (at == None || at == Some(r)) && Tidy(Some(r), up[1..], last)
      case LeaveRequest(r) => (at == None || at == Some(r)) && Tidy(None, up[1..], last)
      case PingRequest(r) => (at == None || at == Some(r)) && Tidy(at, up[1..], last)
  }

  ghost predicate OneRoom(s: State) {
    forall r, q, id :: r in s.rooms && q in s.rooms && id in s.rooms[r] && id in s.rooms[q] ==> r == q
  }

  /** Every member's recorded endpoint reaches that member. */
  ghost predicate Reachable(net: Network, m: Members) {
    forall id :: id in m ==> m[id].addr in net && net[m[id].addr] == id
  }

  ghost predicate RoomsReachable(net: Network, rooms: Rooms, ids: set<PeerId>) {
    forall r :: r in rooms ==> Reachable(net, rooms[r]) && rooms[r].Keys <= ids
  }

  ghost predicate Owned(net: Network, s: State) {
    && RoomsReachable(net, s.rooms, s.clients.Keys)
    && (forall id, i :: id in s.clients && 0 <= i < |s.clients[id].up| && s.clients[id].up[i].JoinRequest? ==>
          s.clients[id].up[i].from in net && net[s.clients[id].up[i].from] == id)
  }

  ghost predicate Disciplined(s: State) {
    && (forall r, id :: r in s.rooms && id in s.rooms[r] && id in s.clients ==>
          Tidy(Some(r), s.clients[id].up, s.clients[id].room))
    && (forall id :: id in s.clients ==> Tidy(None, s.clients[id].up, s.clients[id].room))
  }

  /** The client's view once everything under way to it has arrived. */
  ghost function Eventual(s: State, id: PeerId): View
    requires id in s.clients
  {
    ApplyAll(id, s.clients[id].view, s.clients[id].down)
  }

  ghost function ViewOf(m: Members, id: PeerId): View
    requires id in m
  {
    View(Some(Public(m)[id]), Public(m) - {id})
  }

  /** Every member without a leave under way will see exactly the server's room minus itself. */
  ghost predicate Simulated(s: State) {
    forall r, id :: r in s.rooms && id in s.rooms[r] && id in s.clients && NoLeave(s.clients[id].up)
      ==> Eventual(s, id) == ViewOf(s.rooms[r], id)
  }

  ghost predicate Inv(net: Network, s: State) {
    OneRoom(s) && Owned(net, s) && Disciplined(s) && Simulated(s)
  }

  // ---------------------------------------------------------------- folding messages

  lemma {:induction false} ApplyAllAppend(me: PeerId, v: View, a: seq<Msg>, b: seq<Msg>)
    ensures ApplyAll(me, v, a + b) == ApplyAll(me, ApplyAll(me, v, a), b)
    decreases |b|
  {
    if |b| == 0 {
      assert a + b == a;
    } else {
      ApplyAllAppend(me, v, a, b[..|b| - 1]);
      assert (a + b)[..|a + b| - 1] == a + b[..|b| - 1];
    }
  }

  /** A snapshot replaces whatever the client had, whatever the order it lists the members in. */
  lemma {:induction false} StatusGivesView(me: PeerId, peers: seq<PeerInfo>, t: Table)
    requires IsListing(peers, t)
    ensures ApplyStatus(me, peers).peers == t - {me}
    ensures ApplyStatus(me, peers).self == if me in t then Some(t[me]) else None
    decreases |peers|
  {
    if |peers| == 0 {
      assert forall id :: id in t ==> PeerInfo(id, t[id]) in peers;
    } else {
      var n := |peers| - 1;
      var p := peers[n];
      assert p in peers;
      var rest := t - {p.id};
      forall q ensures q in peers[..n] <==> q.id in rest && rest[q.id] == q.info {
        assert q in peers <==> q in peers[..n] || q == p;
      }
      StatusGivesView(me, peers[..n], rest);
      assert t == rest[p.id := p.info];
    }
  }

  /** A broadcast reaches each of its addressees once and nobody else. */
  lemma {:induction false} BroadcastReceived(net: Network, me: PeerId, order: seq<PeerId>, t: Table, msg: Msg)
    requires forall i :: 0 <= i < |order| ==> order[i] in t
    requires forall id :: id in t ==> t[id].addr in net && net[t[id].addr] == id
    requires forall i, j :: 0 <= i < j < |order| ==> order[i] != order[j]
    ensures Received(net, me, SendAll(order, t, msg)) == if me in order then [msg] else []
    decreases |order|
  {
    if |order| > 0 {
      var n := |order| - 1;
      var init, last := order[..n], order[n];
      assert order == init + [last];
      assert last in order;
      assert me in order <==> me in init || me == last;
      BroadcastReceived(net, me, init, t, msg);
      var before := SendAll(init, t, msg);
      var sent := before + [Datagram(t[last].addr, msg)];
      assert SendAll(order, t, msg) == sent;
      assert sent[..|sent| - 1] == before;
    }
  }

  lemma {:induction false} ReceivedAppend(net: Network, me: PeerId, a: seq<Datagram>, b: seq<Datagram>)
    ensures Received(net, me, a + b) == Received(net, me, a) + Received(net, me, b)
    decreases |b|
  {
    if |b| == 0 {
      assert a + b == a;
    } else {
      ReceivedAppend(net, me, a, b[..|b| - 1]);
      assert (a + b)[..|a + b| - 1] == a + b[..|b| - 1];
    }
  }

  lemma IsBroadcastReceived(net: Network, me: PeerId, sent: seq<Datagram>, t: Table, msg: Msg)
    requires IsBroadcast(sent, t, msg)
    requires forall id :: id in t ==> t[id].addr in net && net[t[id].addr] == id
    ensures Received(net, me, sent) == if me in t then [msg] else []
  {
    var order :| Enumerates(order, t.Keys) && sent == SendAll(order, t, msg);
    BroadcastReceived(net, me, order, t, msg);
  }

  // ---------------------------------------------------------------- requests under way

  lemma {:induction false} TidyFromNowhere(at: Option<RoomId>, up: seq<Request>, last: Option<RoomId>)
    requires Tidy(at, up, last)
    ensures Tidy(None, up, last)
    decreases |up|
  {
    if |up| > 0 && up[0].PingRequest? {
      TidyFromNowhere(at, up[1..], last);
    }
  }

  /** A client that asks for the room it is in, leaves the room it is in, or pings it, stays tidy. */
  lemma {:induction false} TidyAppend(at: Option<RoomId>, up: seq<Request>, last: Option<RoomId>,
                                      req: Request, last': Option<RoomId>)
    requires Tidy(at, up, last)
    requires last == None || last == Some(req.room)
    requires last' == if req.LeaveRequest? then None else Some(req.room)
    ensures Tidy(at, up + [req], last')
    decreases |up|
  {
    if |up| == 0 {
      assert (up + [req])[1..] == [];
    } else {
      assert (up + [req])[1..] == up[1..] + [req];
      match up[0]
      case JoinRequest(r, _) => TidyAppend(Some(r), up[1..], last, req, last');
      case LeaveRequest(r) => TidyAppend(None, up[1..], last, req, last');
      case PingRequest(r) => TidyAppend(at, up[1..], last, req, last');
    }
  }

  // ---------------------------------------------------------------- every step keeps the invariant

  lemma ArrivesEventually(net: Network, clients: map<PeerId, Client>, sent: seq<Datagram>, id: PeerId)
    requires id in clients
    ensures var c, c' := clients[id], Arrive(net, clients, sent)[id];
            && c'.up == c.up && c'.room == c.room
            && ApplyAll(id, c'.view, c'.down)
               == ApplyAll(id, ApplyAll(id, c.view, c.down), Received(net, id, sent))
  {
    ApplyAllAppend(id, clients[id].view, clients[id].down, Received(net, id, sent));
  }

  lemma {:induction false} ApplyOne(me: PeerId, v: View, msg: Msg)
    ensures ApplyAll(me, v, [msg]) == Apply(me, v, msg)
    ensures ApplyAll(me, v, []) == v
  {
    assert [msg][..0] == [];
  }

  lemma {:induction false} ReceiveNext(me: PeerId, v: View, msgs: seq<Msg>)
    requires |msgs| > 0
    ensures ApplyAll(me, Apply(me, v, msgs[0]), msgs[1..]) == ApplyAll(me, v, msgs)
  {
    ApplyAllAppend(me, v, msgs[..1], msgs[1..]);
    ApplyOne(me, v, msgs[0]);
    assert msgs[..1] == [msgs[0]];
    assert msgs[..1] + msgs[1..] == msgs;
  }

  /** What a join makes each client receive: the newcomer its snapshot, the other members its
      address, everyone else nothing. */
  lemma JoinReceived(net: Network, me: PeerId, sent: seq<Datagram>, t: Table, id: PeerId, remote: Endpoint)
    requires id in t && t[id].addr == remote && JoinReplies(sent, t, id, remote)
    requires forall k :: k in t ==> t[k].addr in net && net[t[k].addr] == k
    ensures Received(net, me, sent) ==
            if me == id then [sent[0].msg]
            else if me in t then [PeerAddress(PeerInfo(id, t[id]))] else []
  {
    var others := t - {id};
    var msg := PeerAddress(PeerInfo(id, t[id]));
    IsBroadcastReceived(net, me, sent[1..], others, msg);
    ReceivedAppend(net, me, sent[..1], sent[1..]);
    assert sent[..1] + sent[1..] == sent;
    assert sent[..1][..0] == [];
    assert Received(net, me, sent[..1]) == if me == id then [sent[0].msg] else [];
  }

  /** And the newcomer is told its own number. */
  lemma JoinTells(rooms: Rooms, id: PeerId, r: RoomId, from: Endpoint, now: int, sent: seq<Datagram>, rooms': Rooms)
    requires Handled(rooms, id, JoinRequest(r, from), now, sent, rooms')
    ensures r in rooms' && id in rooms'[r] && |sent| == |rooms'[r]| && sent[0].to == from && sent[0].msg.RoomStatus?
    ensures sent[0].msg.localVip == rooms'[r][id].vip
    ensures var at := sent[0].msg.localIndex;
            0 <= at < |sent[0].msg.peers| && sent[0].msg.peers[at] == PeerInfo(id, Info(rooms'[r][id].vip, from))
  {
    WelcomeTells(sent, rooms'[r], id, from);
  }

  lemma WelcomeTells(sent: seq<Datagram>, m: Members, id: PeerId, from: Endpoint)
    requires id in m && m[id].addr == from && JoinReplies(sent, Public(m), id, from)
    ensures |sent| == |m|
    ensures sent[0].msg.peers[sent[0].msg.localIndex] == PeerInfo(id, Info(m[id].vip, from))
  {
    var t := Public(m);
    assert sent[0].msg.peers[sent[0].msg.localIndex] in sent[0].msg.peers;
    BroadcastLength(sent[1..], t - {id}, PeerAddress(PeerInfo(id, Info(t[id].vip, from))));
    OthersCount(m, id);
  }

  lemma OthersCount(m: Members, id: PeerId)
    requires id in m
    ensures |m| == 1 + |(Public(m) - {id}).Keys|
  {
    assert m.Keys == (Public(m) - {id}).Keys + {id};
    assert |m| == |m.Keys|;
  }

  lemma BroadcastLength(sent: seq<Datagram>, t: Table, msg: Msg)
    requires IsBroadcast(sent, t, msg)
    ensures |sent| == |t.Keys|
  {
    var order :| Enumerates(order, t.Keys) && sent == SendAll(order, t, msg);
    EnumerationLength(order, t.Keys);
  }

  lemma {:induction false} EnumerationLength(order: seq<PeerId>, ids: set<PeerId>)
    requires Enumerates(order, ids)
    ensures |order| == |ids|
    decreases |order|
  {
    if |order| == 0 {
      assert ids == {};
    } else {
      var n := |order| - 1;
      assert order[n] in order;
      forall x ensures x in order[..n] <==> x in ids - {order[n]} {
        assert x in order <==> x in order[..n] || x == order[n];
      }
      EnumerationLength(order[..n], ids - {order[n]});
    }
  }

  /** Folding the snapshot or the delta of a join over an exact view gives an exact view again. */
  lemma JoinView(m: Members, me: PeerId, id: PeerId, addr: Endpoint, now: int, v: View, msg: Msg)
    requires var m' := JoinStep(m, id, addr, now);
             if me == id then msg.RoomStatus? && IsListing(msg.peers, Public(m'))
             else me in m && v == ViewOf(m, me) && msg == PeerAddress(PeerInfo(id, Public(m')[id]))
    ensures me in JoinStep(m, id, addr, now)
    ensures Apply(me, v, msg) == ViewOf(JoinStep(m, id, addr, now), me)
  {
    var m' := JoinStep(m, id, addr, now);
    if me == id {
      StatusGivesView(me, msg.peers, Public(m'));
    } else {
      assert (Public(m) - {me})[id := Public(m')[id]] == Public(m') - {me};
    }
  }

  lemma TidyHead(s: State, id: PeerId)
    requires Disciplined(s) && id in s.clients && |s.clients[id].up| > 0
    ensures forall r :: r in s.rooms && id in s.rooms[r] ==> r == s.clients[id].up[0].room
  {
    forall r | r in s.rooms && id in s.rooms[r] ensures r == s.clients[id].up[0].room {
      assert Tidy(Some(r), s.clients[id].up, s.clients[id].room);
    }
  }

  /** Where the request of the client id is taken off its uplink. */
  ghost function Taken(s: State, id: PeerId): map<PeerId, Client>
    requires id in s.clients && |s.clients[id].up| > 0
  {
    s.clients[id := s.clients[id].(up := s.clients[id].up[1..])]
  }

  lemma TakenKeepsOwned(net: Network, s: State, id: PeerId, rooms: Rooms)
    requires Owned(net, s) && id in s.clients && |s.clients[id].up| > 0
    requires RoomsReachable(net, rooms, s.clients.Keys)
    ensures Owned(net, State(rooms, Taken(s, id)))
  {
    var c := s.clients[id];
    forall i | 0 <= i < |c.up| - 1 && c.up[1..][i].JoinRequest?
      ensures c.up[1..][i].from in net && net[c.up[1..][i].from] == id
    {
      assert c.up[1..][i] == c.up[i + 1];
    }
  }

  /** Arriving messages change no uplink, so they keep every part of the invariant but the views. */
  lemma ArriveKeeps(net: Network, rooms: Rooms, clients: map<PeerId, Client>, sent: seq<Datagram>)
    ensures var s, s' := State(rooms, clients), State(rooms, Arrive(net, clients, sent));
            && (OneRoom(s) ==> OneRoom(s')) && (Owned(net, s) ==> Owned(net, s'))
            && (Disciplined(s) ==> Disciplined(s'))
  {
    var arrived := Arrive(net, clients, sent);
    assert forall k :: k in arrived ==> arrived[k].up == clients[k].up && arrived[k].room == clients[k].room;
  }

  lemma JoinHandledTidy(net: Network, s: State, id: PeerId, now: int)
    requires OneRoom(s) && Owned(net, s) && Disciplined(s)
    requires id in s.clients && |s.clients[id].up| > 0 && s.clients[id].up[0].JoinRequest?
    ensures var JoinRequest(r, from) := s.clients[id].up[0];
            var mid := State(JoinRooms(s.rooms, r, id, from, now), Taken(s, id));
            OneRoom(mid) && Owned(net, mid) && Disciplined(mid)
  {
    var c := s.clients[id];
    var JoinRequest(r, from) := c.up[0];
    var mid := State(JoinRooms(s.rooms, r, id, from, now), Taken(s, id));
    TidyHead(s, id);
    forall q | q in mid.rooms ensures Reachable(net, mid.rooms[q]) && mid.rooms[q].Keys <= s.clients.Keys {
      if q == r {
        var m := if r in s.rooms then s.rooms[r] else map[];
        assert Reachable(net, m) && m.Keys <= s.clients.Keys;
      }
    }
    TakenKeepsOwned(net, s, id, mid.rooms);
    assert Tidy(None, c.up, c.room);
    TidyFromNowhere(Some(r), c.up[1..], c.room);
    forall q, k | q in mid.rooms && k in mid.rooms[q] && k in mid.clients
      ensures Tidy(Some(q), mid.clients[k].up, mid.clients[k].room)
    {
      if k == id { assert q == r; }
    }
  }

  lemma JoinHandledView(net: Network, s: State, id: PeerId, now: int, sent: seq<Datagram>, q: RoomId, k: PeerId)
    requires Inv(net, s) && id in s.clients && |s.clients[id].up| > 0 && s.clients[id].up[0].JoinRequest?
    requires Handled(s.rooms, id, s.clients[id].up[0], now, sent,
                     JoinRooms(s.rooms, s.clients[id].up[0].room, id, s.clients[id].up[0].from, now))
    requires var after := JoinRooms(s.rooms, s.clients[id].up[0].room, id, s.clients[id].up[0].from, now);
             q in after && k in after[q] && k in s.clients && NoLeave(Taken(s, id)[k].up)
    ensures var after := JoinRooms(s.rooms, s.clients[id].up[0].room, id, s.clients[id].up[0].from, now);
            ApplyAll(k, Eventual(s, k), Received(net, k, sent)) == ViewOf(after[q], k)
  {
    var c := s.clients[id];
    var JoinRequest(r, from) := c.up[0];
    var m := if r in s.rooms then s.rooms[r] else map[];
    var m' := JoinStep(m, id, from, now);
    TidyHead(s, id);
    assert forall x :: x in m' && x != id ==> m'[x] == m[x];
    JoinReceived(net, k, sent, Public(m'), id, from);
    if q == r {
      var msg := if k == id then sent[0].msg else PeerAddress(PeerInfo(id, Public(m')[id]));
      ApplyOne(k, Eventual(s, k), msg);
      JoinView(m, k, id, from, now, Eventual(s, k), msg);
    } else {
      assert k != id && k !in m';
      ApplyOne(k, Eventual(s, k), sent[0].msg);
    }
  }

  lemma JoinHandledKeepsInv(net: Network, s: State, id: PeerId, now: int, sent: seq<Datagram>, s': State)
    requires Inv(net, s) && id in s.clients && |s.clients[id].up| > 0 && s.clients[id].up[0].JoinRequest?
    requires Next(net, s, ServerHandles(id, now, sent), s')
    ensures Inv(net, s')
  {
    JoinHandledTidy(net, s, id, now);
    ArriveKeeps(net, s'.rooms, Taken(s, id), sent);
    forall q, k | q in s'.rooms && k in s'.rooms[q] && k in s'.clients && NoLeave(s'.clients[k].up)
      ensures Eventual(s', k) == ViewOf(s'.rooms[q], k)
    {
      ArrivesEventually(net, Taken(s, id), sent, k);
      JoinHandledView(net, s, id, now, sent, q, k);
    }
  }

  // Leaves and heartbeats only take members away or refresh their timers.
  ghost predicate Shrinks(rooms: Rooms, rooms': Rooms) {
    forall r, k :: r in rooms' && k in rooms'[r] ==>
      r in rooms && k in rooms[r] && rooms'[r][k].(lastSeen := 0) == rooms[r][k].(lastSeen := 0)
  }

  lemma ShrinkKeepsTidy(net: Network, s: State, rooms': Rooms)
    requires OneRoom(s) && Owned(net, s) && Disciplined(s) && Shrinks(s.rooms, rooms')
    ensures OneRoom(s.(rooms := rooms')) && Owned(net, s.(rooms := rooms')) && Disciplined(s.(rooms := rooms'))
  {
    forall r | r in rooms' ensures Reachable(net, rooms'[r]) && rooms'[r].Keys <= s.clients.Keys {
      forall k | k in rooms'[r] ensures rooms'[r][k].addr == s.rooms[r][k].addr {
        assert rooms'[r][k].(lastSeen := 0) == s.rooms[r][k].(lastSeen := 0);
      }
    }
  }

  lemma LeaveHandledTidy(net: Network, s: State, id: PeerId)
    requires OneRoom(s) && Owned(net, s) && Disciplined(s)
    requires id in s.clients && |s.clients[id].up| > 0 && s.clients[id].up[0].LeaveRequest?
    ensures var mid := State(LeaveRooms(s.rooms, s.clients[id].up[0].room, id), Taken(s, id));
            OneRoom(mid) && Owned(net, mid) && Disciplined(mid)
  {
    var c := s.clients[id];
    var r := c.up[0].room;
    var rooms' := LeaveRooms(s.rooms, r, id);
    TidyHead(s, id);
    assert Tidy(None, c.up, c.room);
    forall q | q in rooms' ensures q in s.rooms && Reachable(net, rooms'[q]) && rooms'[q].Keys <= s.rooms[q].Keys {
      assert Reachable(net, s.rooms[q]);
    }
    TakenKeepsOwned(net, s, id, rooms');
  }

  lemma TableWithout(m: Members, id: PeerId, k: PeerId)
    ensures Public(m) - {k} - {id} == Public(m - {id}) - {k}
  {
  }

  lemma LeaveHandledView(net: Network, s: State, id: PeerId, sent: seq<Datagram>, q: RoomId, k: PeerId)
    requires Inv(net, s) && id in s.clients && |s.clients[id].up| > 0 && s.clients[id].up[0].LeaveRequest?
    requires LeaveReplies(sent, s.rooms, s.clients[id].up[0].room, id)
    requires var after := LeaveRooms(s.rooms, s.clients[id].up[0].room, id);
             q in after && k in after[q] && k in s.clients && NoLeave(Taken(s, id)[k].up)
    ensures var after := LeaveRooms(s.rooms, s.clients[id].up[0].room, id);
            ApplyAll(k, Eventual(s, k), Received(net, k, sent)) == ViewOf(after[q], k)
  {
    var r := s.clients[id].up[0].room;
    TidyHead(s, id);
    assert k != id;
    ApplyOne(k, Eventual(s, k), PeerLeave(id));
    if r in s.rooms {
      var m := s.rooms[r];
      assert Reachable(net, m);
      IsBroadcastReceived(net, k, sent, Public(m - {id}), PeerLeave(id));
      TableWithout(m, id, k);
    }
  }

  lemma LeaveHandledKeepsInv(net: Network, s: State, id: PeerId, now: int, sent: seq<Datagram>, s': State)
    requires Inv(net, s) && id in s.clients && |s.clients[id].up| > 0 && s.clients[id].up[0].LeaveRequest?
    requires Next(net, s, ServerHandles(id, now, sent), s')
    ensures Inv(net, s')
  {
    LeaveHandledTidy(net, s, id);
    ArriveKeeps(net, s'.rooms, Taken(s, id), sent);
    forall q, k | q in s'.rooms && k in s'.rooms[q] && k in s'.clients && NoLeave(s'.clients[k].up)
      ensures Eventual(s', k) == ViewOf(s'.rooms[q], k)
    {
      ArrivesEventually(net, Taken(s, id), sent, k);
      LeaveHandledView(net, s, id, sent, q, k);
    }
  }

  lemma PingHandledTidy(net: Network, s: State, id: PeerId, now: int)
    requires OneRoom(s) && Owned(net, s) && Disciplined(s)
    requires id in s.clients && |s.clients[id].up| > 0 && s.clients[id].up[0].PingRequest?
    ensures var mid := State(TouchRooms(s.rooms, s.clients[id].up[0].room, id, now), Taken(s, id));
            OneRoom(mid) && Owned(net, mid) && Disciplined(mid)
  {
    var c := s.clients[id];
    var mid := State(s.rooms, Taken(s, id));
    TakenKeepsOwned(net, s, id, s.rooms);
    assert Tidy(None, c.up, c.room);
    forall q | q in s.rooms && id in s.rooms[q] ensures Tidy(Some(q), c.up[1..], c.room) {
      assert Tidy(Some(q), c.up, c.room);
    }
    ShrinkKeepsTidy(net, mid, TouchRooms(s.rooms, c.up[0].room, id, now));
  }

  lemma PingHandledKeepsInv(net: Network, s: State, id: PeerId, now: int, sent: seq<Datagram>, s': State)
    requires Inv(net, s) && id in s.clients && |s.clients[id].up| > 0 && s.clients[id].up[0].PingRequest?
    requires Next(net, s, ServerHandles(id, now, sent), s')
    ensures Inv(net, s')
  {
    PingHandledTidy(net, s, id, now);
    ArriveKeeps(net, s'.rooms, Taken(s, id), sent);
    forall q, k | q in s'.rooms && k in s'.rooms[q] && k in s'.clients && NoLeave(s'.clients[k].up)
      ensures Eventual(s', k) == ViewOf(s'.rooms[q], k)
    {
      ArrivesEventually(net, Taken(s, id), sent, k);
      ApplyOne(k, Eventual(s, k), PeerLeave(k));
      TouchedTable(s.rooms, s.clients[id].up[0].room, id, now, q);
      PingKeepsNoLeave(s, id, k);
    }
  }

  lemma TouchedTable(rooms: Rooms, r: RoomId, id: PeerId, now: int, q: RoomId)
    requires q in TouchRooms(rooms, r, id, now)
    ensures q in rooms && Public(TouchRooms(rooms, r, id, now)[q]) == Public(rooms[q])
  {
  }

  lemma PingKeepsNoLeave(s: State, id: PeerId, k: PeerId)
    requires id in s.clients && |s.clients[id].up| > 0 && !s.clients[id].up[0].LeaveRequest?
    requires k in s.clients && NoLeave(Taken(s, id)[k].up)
    ensures NoLeave(s.clients[k].up)
  {
    var up := s.clients[k].up;
    if k == id {
      forall i | 0 <= i < |up| ensures !up[i].LeaveRequest? {
        if i > 0 { assert up[1..][i - 1] == up[i]; }
      }
    }
  }

  // ---------------------------------------------------------------- timeout scans

  /** The members of room r among the first reported ones. */
  function ReportedIn(report: seq<(RoomId, PeerId)>, r: RoomId): set<PeerId> {
    set p | p in report && p.0 == r :: p.1
  }

  /** The client is in room r and no other, and endpoints reach their owners. */
  ghost predicate OnlyIn(net: Network, rooms: Rooms, me: PeerId, r: RoomId) {
    && r in rooms && me in rooms[r]
    && forall q :: q in rooms ==> Reachable(net, rooms[q]) && (me in rooms[q] ==> q == r)
  }

  ghost predicate SeesGone(net: Network, me: PeerId, sent: seq<Datagram>, report: seq<(RoomId, PeerId)>, r: RoomId,
                           v: View)
  {
    ApplyAll(me, v, Received(net, me, sent)) == v.(peers := v.peers - ReportedIn(report, r))
  }

  /** What a scan makes a survivor of room r receive: one leave per reported member of its room. */
  lemma {:induction false} ScanReceived(net: Network, me: PeerId, batches: seq<seq<Datagram>>, rooms: Rooms,
                                        report: seq<(RoomId, PeerId)>, r: RoomId, v: View)
    requires ScanReplies(batches, rooms, report) && OnlyIn(net, rooms, me, r)
    ensures SeesGone(net, me, Flat(batches), report, r, v)
    decreases |report|
  {
    if |report| == 0 {
      SeesNothing(net, me, r, v);
      assert batches == [] && report == [];
    } else {
      var n := |report| - 1;
      ScanReceived(net, me, batches[..n], rooms, report[..n], r, v);
      assert ScanReply(batches[n], rooms, report[n].0, report[n].1);
      SeesOneMore(net, me, Flat(batches[..n]), batches[n], rooms, report[..n], report[n], r, v);
      assert report[..n] + [report[n]] == report;
    }
  }

  lemma SeesNothing(net: Network, me: PeerId, r: RoomId, v: View)
    ensures SeesGone(net, me, Flat([]), [], r, v)
  {
    assert v.peers - ReportedIn([], r) == v.peers;
  }

  lemma SeesOneMore(net: Network, me: PeerId, before: seq<Datagram>, sent: seq<Datagram>, rooms: Rooms,
                    report: seq<(RoomId, PeerId)>, last: (RoomId, PeerId), r: RoomId, v: View)
    requires ScanReply(sent, rooms, last.0, last.1) && OnlyIn(net, rooms, me, r)
    requires SeesGone(net, me, before, report, r, v)
    ensures SeesGone(net, me, before + sent, report + [last], r, v)
  {
    LastLeave(net, me, sent, rooms, last.0, last.1, r);
    ReceivedInTwoParts(net, me, v, before, sent);
    ApplyOne(me, ApplyAll(me, v, Received(net, me, before)), PeerLeave(last.1));
    ReportedSnoc(report, last, r);
    MinusTwice(v.peers, ReportedIn(report, r), last.1);
  }

  lemma ReceivedInTwoParts(net: Network, me: PeerId, v: View, a: seq<Datagram>, b: seq<Datagram>)
    ensures ApplyAll(me, v, Received(net, me, a + b))
         == ApplyAll(me, ApplyAll(me, v, Received(net, me, a)), Received(net, me, b))
  {
    ReceivedAppend(net, me, a, b);
    ApplyAllAppend(me, v, Received(net, me, a), Received(net, me, b));
  }

  lemma MinusTwice(t: Table, gone: set<PeerId>, id: PeerId)
    ensures t - gone - {id} == t - (gone + {id})
    ensures gone + {} == gone
  {
  }

  lemma LastLeave(net: Network, me: PeerId, sent: seq<Datagram>, rooms: Rooms, q: RoomId, id: PeerId, r: RoomId)
    requires ScanReply(sent, rooms, q, id) && OnlyIn(net, rooms, me, r)
    ensures Received(net, me, sent) == if q == r then [PeerLeave(id)] else []
  {
    if q in rooms {
      IsBroadcastReceived(net, me, sent, Public(rooms[q]), PeerLeave(id));
    }
  }

  lemma ReportedSnoc(init: seq<(RoomId, PeerId)>, last: (RoomId, PeerId), r: RoomId)
    ensures ReportedIn(init + [last], r) == ReportedIn(init, r) + (if last.0 == r then {last.1} else {})
  {
    var all := init + [last];
    forall k ensures k in ReportedIn(all, r) <==> k in ReportedIn(init, r) || (last.0 == r && k == last.1) {
      assert (r, k) in all <==> (r, k) in init || (r, k) == last;
      assert k in ReportedIn(all, r) <==> (r, k) in all;
      assert k in ReportedIn(init, r) <==> (r, k) in init;
    }
  }

  lemma ScanView(net: Network, s: State, now: int, timeout: int, report: seq<(RoomId, PeerId)>,
                 batches: seq<seq<Datagram>>, r: RoomId, k: PeerId)
    requires Inv(net, s)
    requires Reports(report, SilentIn(s.rooms, now, timeout))
    requires ScanReplies(batches, ScanRooms(s.rooms, now, timeout), report)
    requires OneRoom(s.(rooms := ScanRooms(s.rooms, now, timeout)))
    requires Owned(net, s.(rooms := ScanRooms(s.rooms, now, timeout)))
    requires var after := ScanRooms(s.rooms, now, timeout);
             r in after && k in after[r] && k in s.clients && NoLeave(s.clients[k].up)
    ensures ApplyAll(k, Eventual(s, k), Received(net, k, Flat(batches)))
         == ViewOf(ScanRooms(s.rooms, now, timeout)[r], k)
  {
    var after := ScanRooms(s.rooms, now, timeout);
    ScanReceived(net, k, batches, after, report, r, Eventual(s, k));
    ReportedAreSilent(report, s.rooms, now, timeout, r);
    SurvivorTable(s.rooms[r], now, timeout, k);
  }

  lemma ReportedAreSilent(report: seq<(RoomId, PeerId)>, rooms: Rooms, now: int, timeout: int, r: RoomId)
    requires r in rooms && Reports(report, SilentIn(rooms, now, timeout))
    ensures ReportedIn(report, r) == Expired(rooms[r], now, timeout)
  {
    forall x ensures x in ReportedIn(report, r) <==> x in Expired(rooms[r], now, timeout) {
      assert x in ReportedIn(report, r) <==> (r, x) in report;
    }
  }

  lemma SurvivorTable(m: Members, now: int, timeout: int, k: PeerId)
    ensures Public(m) - {k} - Expired(m, now, timeout) == Public(ScanStep(m, now, timeout)) - {k}
    ensures k in ScanStep(m, now, timeout) ==> Public(ScanStep(m, now, timeout))[k] == Public(m)[k]
  {
  }

  lemma ScanTidy(net: Network, s: State, now: int, timeout: int)
    requires OneRoom(s) && Owned(net, s) && Disciplined(s)
    ensures var s' := s.(rooms := ScanRooms(s.rooms, now, timeout));
            OneRoom(s') && Owned(net, s') && Disciplined(s')
  {
    var after := ScanRooms(s.rooms, now, timeout);
    forall r, k | r in after && k in after[r]
      ensures r in s.rooms && k in s.rooms[r] && after[r][k] == s.rooms[r][k]
    {
      assert after[r] == ScanStep(s.rooms[r], now, timeout);
    }
    ShrinkKeepsTidy(net, s, after);
  }

  lemma ScanKeepsInv(net: Network, s: State, e: Event, s': State)
    requires Inv(net, s) && e.ServerScans? && Next(net, s, e, s')
    ensures Inv(net, s')
  {
    var ServerScans(now, timeout, report, batches) := e;
    ScanTidy(net, s, now, timeout);
    ArriveKeeps(net, s'.rooms, s.clients, Flat(batches));
    forall r, k | r in s'.rooms && k in s'.rooms[r] && k in s'.clients && NoLeave(s'.clients[k].up)
      ensures Eventual(s', k) == ViewOf(s'.rooms[r], k)
    {
      ArrivesEventually(net, s.clients, Flat(batches), k);
      ScanView(net, s, now, timeout, report, batches, r, k);
    }
  }

  // ---------------------------------------------------------------- client steps and whole runs

  lemma AppendTidy(s: State, id: PeerId, req: Request, room': Option<RoomId>)
    requires Disciplined(s) && id in s.clients
    requires s.clients[id].room == None || s.clients[id].room == Some(req.room)
    requires room' == if req.LeaveRequest? then None else Some(req.room)
    ensures Tidy(None, s.clients[id].up + [req], room')
    ensures forall r :: r in s.rooms && id in s.rooms[r] ==> Tidy(Some(r), s.clients[id].up + [req], room')
  {
    var c := s.clients[id];
    TidyAppend(None, c.up, c.room, req, room');
    forall r | r in s.rooms && id in s.rooms[r] ensures Tidy(Some(r), c.up + [req], room') {
      TidyAppend(Some(r), c.up, c.room, req, room');
    }
  }

  lemma ClientTidy(s: State, e: Event, net: Network, s': State)
    requires OneRoom(s) && Owned(net, s) && Disciplined(s)
    requires e.ClientJoins? || e.ClientPings? || e.ClientLeaves? || e.ClientReceives?
    requires Next(net, s, e, s')
    ensures OneRoom(s') && Owned(net, s') && Disciplined(s')
  {
    var id := e.id;
    var c, c' := s.clients[id], s'.clients[id];
    assert s'.clients.Keys == s.clients.Keys;
    if |c'.up| > |c.up| {
      var req := c'.up[|c.up|];
      assert c'.up == c.up + [req];
      AppendTidy(s, id, req, c'.room);
    } else {
      assert c'.up == c.up && c'.room == c.room;
    }
  }

  lemma NoLeaveBefore(up: seq<Request>, req: Request)
    requires NoLeave(up + [req])
    ensures NoLeave(up) && !req.LeaveRequest?
  {
    assert (up + [req])[|up|] == req;
    forall i | 0 <= i < |up| ensures !up[i].LeaveRequest? {
      assert (up + [req])[i] == up[i];
    }
  }

  lemma ClientView(s: State, e: Event, net: Network, s': State, r: RoomId)
    requires e.ClientJoins? || e.ClientPings? || e.ClientLeaves? || e.ClientReceives?
    requires Next(net, s, e, s')
    requires Tidy(Some(r), s.clients[e.id].up, s.clients[e.id].room)
    requires NoLeave(s'.clients[e.id].up)
    ensures NoLeave(s.clients[e.id].up) && Eventual(s', e.id) == Eventual(s, e.id)
  {
    var id := e.id;
    var c := s.clients[id];
    match e
    case ClientJoins(_, room, from) => NoLeaveBefore(c.up, JoinRequest(room, from));
    case ClientPings(_) => NoLeaveBefore(c.up, PingRequest(c.room.value));
    case ClientLeaves(_) =>
      if c.room.Some? {
        NoLeaveBefore(c.up, LeaveRequest(c.room.value));
        assert false;
      } else {
        NowhereMeansLeaving(Some(r), c.up);
        assert false;
      }
    case ClientReceives(_) => ReceiveNext(id, c.view, c.down);
  }

  lemma OthersUntouched(s: State, e: Event, net: Network, s': State, k: PeerId)
    requires e.ClientJoins? || e.ClientPings? || e.ClientLeaves? || e.ClientReceives?
    requires Next(net, s, e, s') && k != e.id && k in s'.clients
    ensures k in s.clients && s'.clients[k] == s.clients[k]
  {
  }

  lemma ClientEventual(s: State, e: Event, net: Network, s': State, r: RoomId, k: PeerId)
    requires Disciplined(s) && Simulated(s)
    requires e.ClientJoins? || e.ClientPings? || e.ClientLeaves? || e.ClientReceives?
    requires Next(net, s, e, s')
    requires r in s.rooms && k in s.rooms[r] && k in s'.clients && NoLeave(s'.clients[k].up)
    ensures Eventual(s', k) == ViewOf(s.rooms[r], k)
  {
    if k == e.id {
      ClientView(s, e, net, s', r);
    } else {
      OthersUntouched(s, e, net, s', k);
    }
  }

  lemma ClientKeepsInv(net: Network, s: State, e: Event, s': State)
    requires Inv(net, s) && (e.ClientJoins? || e.ClientPings? || e.ClientLeaves? || e.ClientReceives?)
    requires Next(net, s, e, s')
    ensures Inv(net, s')
  {
    ClientTidy(s, e, net, s');
    forall r, k | r in s'.rooms && k in s'.rooms[r] && k in s'.clients && NoLeave(s'.clients[k].up)
      ensures Eventual(s', k) == ViewOf(s'.rooms[r], k)
    {
      ClientEventual(s, e, net, s', r, k);
    }
  }

  lemma {:induction false} NowhereMeansLeaving(at: Option<RoomId>, up: seq<Request>)
    requires Tidy(at, up, None) && at.Some?
    ensures !NoLeave(up)
    decreases |up|
  {
    assert |up| > 0;
    if !up[0].LeaveRequest? {
      NowhereMeansLeaving(if up[0].JoinRequest? then Some(up[0].room) else at, up[1..]);
      var i :| 0 <= i < |up[1..]| && up[1..][i].LeaveRequest?;
      assert up[i + 1].LeaveRequest?;
    }
  }

  lemma NextKeepsInv(net: Network, s: State, e: Event, s': State)
    requires Inv(net, s) && Next(net, s, e, s')
    ensures Inv(net, s')
  {
    match e
    case ServerScans(_, _, _, _) => ScanKeepsInv(net, s, e, s');
    case ServerHandles(id, now, sent) =>
      match s.clients[id].up[0] {
        case JoinRequest(_, _) => JoinHandledKeepsInv(net, s, id, now, sent, s');
        case LeaveRequest(_) => LeaveHandledKeepsInv(net, s, id, now, sent, s');
        case PingRequest(_) => PingHandledKeepsInv(net, s, id, now, sent, s');
      }
    case _ => ClientKeepsInv(net, s, e, s');
  }

  ghost predicate IsRun(net: Network, states: seq<State>, events: seq<Event>) {
    && |states| == |events| + 1 && Init(states[0])
    && forall i :: 0 <= i < |events| ==> Next(net, states[i], events[i], states[i + 1])
  }

  lemma {:induction false} RunKeepsInv(net: Network, states: seq<State>, events: seq<Event>)
    requires IsRun(net, states, events)
    ensures Inv(net, states[|events|])
    decreases |events|
  {
    if |events| > 0 {
      var n := |events| - 1;
      RunKeepsInv(net, states[..|events|], events[..n]);
      NextKeepsInv(net, states[n], events[n], states[n + 1]);
    }
  }

  /** In every reachable state, a member with no leave under way and nothing left to receive sees
      exactly the server's room: its own record and everyone else's. */
  lemma QuietViewIsExact(net: Network, states: seq<State>, events: seq<Event>, r: RoomId, id: PeerId)
    requires IsRun(net, states, events)
    requires var s := states[|events|];
             r in s.rooms && id in s.rooms[r] && id in s.clients
             && NoLeave(s.clients[id].up) && s.clients[id].down == []
    ensures var s := states[|events|]; s.clients[id].view == ViewOf(s.rooms[r], id)
  {
    RunKeepsInv(net, states, events);
    assert Eventual(states[|events|], id) == states[|events|].clients[id].view;
  }

  lemma NextKeepsPeopled(net: Network, s: State, e: Event, s': State)
    requires Next(net, s, e, s') && forall r :: r in s.rooms ==> s.rooms[r] != map[]
    ensures forall r :: r in s'.rooms ==> s'.rooms[r] != map[]
  {
    match e
    case ServerScans(now, timeout, _, _) =>
      ScanSurvivors(s.rooms, now, timeout);
      forall r | r in s'.rooms ensures s'.rooms[r] != map[] {
        var id :| id in s.rooms[r] && now - s.rooms[r][id].lastSeen <= timeout;
        assert id in s'.rooms[r];
      }
    case ServerHandles(id, _, _) =>
      forall r | r in s'.rooms ensures s'.rooms[r] != map[] {
        if s.clients[id].up[0].JoinRequest? && r == s.clients[id].up[0].room {
          assert id in s'.rooms[r];
        } else if r in s.rooms {
          var k :| k in s.rooms[r];
          assert s.clients[id].up[0].PingRequest? ==> k in s'.rooms[r];
        }
      }
    case _ =>
  }

  /** In every reachable state the server keeps no empty room: the last leave or the scan that empties it
      drops it. */
  lemma {:induction false} NoEmptyRoom(net: Network, states: seq<State>, events: seq<Event>, r: RoomId)
    requires IsRun(net, states, events) && r in states[|events|].rooms
    ensures states[|events|].rooms[r] != map[]
  {
    AllPeopled(net, states, events, |events|);
  }

  lemma {:induction false} AllPeopled(net: Network, states: seq<State>, events: seq<Event>, n: nat)
    requires IsRun(net, states, events) && n <= |events|
    ensures forall r :: r in states[n].rooms ==> states[n].rooms[r] != map[]
    decreases n
  {
    if n > 0 {
      AllPeopled(net, states, events, n - 1);
      NextKeepsPeopled(net, states[n - 1], events[n - 1], states[n]);
    }
  }

  /** In every reachable state, a client that believes itself nowhere while the server still lists
      it has a leave under way. */
  lemma NowhereButListed(net: Network, states: seq<State>, events: seq<Event>, r: RoomId, id: PeerId)
    requires IsRun(net, states, events)
    requires var s := states[|events|];
             r in s.rooms && id in s.rooms[r] && id in s.clients && s.clients[id].room == None
    ensures !NoLeave(states[|events|].clients[id].up)
  {
    RunKeepsInv(net, states, events);
    NowhereMeansLeaving(Some(r), states[|events|].clients[id].up);
  }

  // ---------------------------------------------------------------- one room of the system

  ghost function RoomOf(s: State, r: RoomId): Members {
    if r in s.rooms then s.rooms[r] else map[]
  }

  /** What an event of the system does to room r. */
  ghost function OpOf(s: State, e: Event, r: RoomId): Op {
    match e
    case ServerHandles(id, now, _) =>
      if id !in s.clients || |s.clients[id].up| == 0 || s.clients[id].up[0].room != r then Idle
      else (match s.clients[id].up[0]
            case JoinRequest(_, from) => Join(id, from, now)
            case LeaveRequest(_) => Leave(id)
            case PingRequest(_) => Touch(id, now))
    case ServerScans(now, timeout, _, _) => Scan(now, timeout)
    case _ => Idle
  }

  lemma ScannedRoom(rooms: Rooms, r: RoomId, now: int, timeout: int)
    ensures (if r in ScanRooms(rooms, now, timeout) then ScanRooms(rooms, now, timeout)[r] else map[])
         == ScanStep(if r in rooms then rooms[r] else map[], now, timeout)
  {
    if r in rooms && ScanStep(rooms[r], now, timeout).Keys == {} {
      assert ScanStep(rooms[r], now, timeout) == map[];
    }
  }

  lemma HandledRoom(rooms: Rooms, id: PeerId, req: Request, now: int, sent: seq<Datagram>, rooms': Rooms, r: RoomId)
    requires Handled(rooms, id, req, now, sent, rooms')
    ensures r != req.room ==> (r in rooms' <==> r in rooms) && (r in rooms ==> rooms'[r] == rooms[r])
    ensures var m := if req.room in rooms then rooms[req.room] else map[];
            var m' := if req.room in rooms' then rooms'[req.room] else map[];
            m' == match req
                  case JoinRequest(_, from) => JoinStep(m, id, from, now)
                  case LeaveRequest(_) => m - {id}
                  case PingRequest(_) => TouchStep(m, id, now)
  {
  }

  lemma RoomStep(net: Network, s: State, e: Event, s': State, r: RoomId)
    requires Next(net, s, e, s')
    ensures RoomOf(s', r) == Step(RoomOf(s, r), OpOf(s, e, r))
  {
    match e
    case ServerScans(now, timeout, _, _) => ScannedRoom(s.rooms, r, now, timeout);
    case ServerHandles(id, now, sent) => HandledRoom(s.rooms, id, s.clients[id].up[0], now, sent, s'.rooms, r);
    case _ =>
  }

  /** The operations on room r from the i-th event up to the n-th. */
  ghost function OpsOf(states: seq<State>, events: seq<Event>, r: RoomId, i: nat, n: nat): (ops: seq<Op>)
    requires i <= n <= |events| < |states|
    ensures |ops| == n - i && forall j :: i <= j < n ==> ops[j - i] == OpOf(states[j], events[j], r)
  {
    if n == i then [] else OpsOf(states, events, r, i, n - 1) + [OpOf(states[n - 1], events[n - 1], r)]
  }

  ghost predicate RoomFollows(states: seq<State>, events: seq<Event>, r: RoomId) {
    |states| == |events| + 1 && forall n :: 0 <= n < |events| ==> FollowsAt(states, events, r, n)
  }

  ghost predicate FollowsAt(states: seq<State>, events: seq<Event>, r: RoomId, n: nat)
    requires n < |events| < |states|
  {
    RoomOf(states[n + 1], r) == Step(RoomOf(states[n], r), OpOf(states[n], events[n], r))
  }

  ghost predicate FollowedTo(states: seq<State>, events: seq<Event>, r: RoomId, i: nat, n: nat)
    requires i <= n <= |events| < |states|
  {
    RoomOf(states[n], r) == Run(RoomOf(states[i], r), OpsOf(states, events, r, i, n))
  }

  lemma NotYetFollowed(states: seq<State>, events: seq<Event>, r: RoomId, i: nat)
    requires i <= |events| < |states|
    ensures FollowedTo(states, events, r, i, i)
  {
  }

  lemma FollowedOnce(states: seq<State>, events: seq<Event>, r: RoomId, i: nat, n: nat)
    requires i <= n < |events| < |states| && FollowsAt(states, events, r, n) && FollowedTo(states, events, r, i, n)
    ensures FollowedTo(states, events, r, i, n + 1)
  {
    RunSnoc(RoomOf(states[i], r), OpsOf(states, events, r, i, n), OpOf(states[n], events[n], r));
  }

  lemma {:induction false} FollowedRoom(states: seq<State>, events: seq<Event>, r: RoomId, i: nat, n: nat)
    requires RoomFollows(states, events, r) && i <= n <= |events|
    ensures FollowedTo(states, events, r, i, n)
    decreases n
  {
    if i == n {
      NotYetFollowed(states, events, r, i);
    } else {
      FollowedRoom(states, events, r, i, n - 1);
      FollowedOnce(states, events, r, i, n - 1);
    }
  }

  /** Over any run of the system each room runs through its own operations. */
  lemma RoomRun(net: Network, states: seq<State>, events: seq<Event>, r: RoomId, i: nat, n: nat)
    requires IsRun(net, states, events) && i <= n <= |events|
    ensures RoomOf(states[n], r) == Run(RoomOf(states[i], r), OpsOf(states, events, r, i, n))
  {
    forall k | 0 <= k < |events|
      ensures FollowsAt(states, events, r, k)
    {
      RoomStep(net, states[k], events[k], states[k + 1], r);
    }
    FollowedRoom(states, events, r, i, n);
  }

  // ---------------------------------------------------------------- numbers over whole runs

  ghost predicate NumbersDistinct(rooms: Rooms) {
    forall r :: r in rooms ==> Unique(rooms[r]) && InRange(rooms[r])
  }

  /** A join the event handles is a rejoin or finds at most 65,532 members. */
  ghost predicate JoinFindsRoom(s: State, e: Event) {
    e.ServerHandles? && e.id in s.clients && |s.clients[e.id].up| > 0 && s.clients[e.id].up[0].JoinRequest? ==>
      var r := s.clients[e.id].up[0].room;
      r in s.rooms ==> e.id in s.rooms[r] || |s.rooms[r]| < CAPACITY
  }

  ghost predicate EveryJoinFindsRoom(states: seq<State>, events: seq<Event>)
    requires |states| == |events| + 1
  {
    forall i :: 0 <= i < |events| ==> JoinFindsRoom(states[i], events[i])
  }

  lemma JoinedNumbers(rooms: Rooms, r: RoomId, id: PeerId, addr: Endpoint, now: int)
    requires NumbersDistinct(rooms)
    requires r in rooms ==> id in rooms[r] || |rooms[r]| < CAPACITY
    ensures NumbersDistinct(JoinRooms(rooms, r, id, addr, now))
  {
    StepKeepsUnique(if r in rooms then rooms[r] else map[], Join(id, addr, now));
  }

  lemma LeftNumbers(rooms: Rooms, r: RoomId, id: PeerId)
    requires NumbersDistinct(rooms)
    ensures NumbersDistinct(LeaveRooms(rooms, r, id))
  {
    if r in rooms {
      StepKeepsUnique(rooms[r], Leave(id));
    }
  }

  lemma TouchedNumbers(rooms: Rooms, r: RoomId, id: PeerId, now: int)
    requires NumbersDistinct(rooms)
    ensures NumbersDistinct(TouchRooms(rooms, r, id, now))
  {
    if r in rooms {
      StepKeepsUnique(rooms[r], Touch(id, now));
    }
  }

  lemma ScannedNumbers(rooms: Rooms, now: int, timeout: int)
    requires NumbersDistinct(rooms)
    ensures NumbersDistinct(ScanRooms(rooms, now, timeout))
  {
    forall r | r in ScanRooms(rooms, now, timeout)
      ensures Unique(ScanRooms(rooms, now, timeout)[r]) && InRange(ScanRooms(rooms, now, timeout)[r])
    {
      StepKeepsUnique(rooms[r], Scan(now, timeout));
    }
  }

  lemma NextKeepsNumbers(net: Network, s: State, e: Event, s': State)
    requires NumbersDistinct(s.rooms) && Next(net, s, e, s') && JoinFindsRoom(s, e)
    ensures NumbersDistinct(s'.rooms)
  {
    match e
    case ServerScans(now, timeout, _, _) => ScannedNumbers(s.rooms, now, timeout);
    case ServerHandles(id, now, _) =>
      match s.clients[id].up[0] {
        case JoinRequest(r, from) => JoinedNumbers(s.rooms, r, id, from, now);
        case LeaveRequest(r) => LeftNumbers(s.rooms, r, id);
        case PingRequest(r) => TouchedNumbers(s.rooms, r, id, now);
      }
    case _ =>
  }

  /** As long as every newcomer finds room, no two members of a room ever share a number. */
  lemma {:induction false} RunKeepsNumbers(net: Network, states: seq<State>, events: seq<Event>)
    requires IsRun(net, states, events) && EveryJoinFindsRoom(states, events)
    ensures NumbersDistinct(states[|events|].rooms)
    decreases |events|
  {
    if |events| > 0 {
      var n := |events| - 1;
      RunKeepsNumbers(net, states[..|events|], events[..n]);
      NextKeepsNumbers(net, states[n], events[n], states[n + 1]);
    }
  }
}
