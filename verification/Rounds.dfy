/** Rounds of the protocol: a client asks for something, the server handles it, and one member receives
    what that makes the server send it. Whatever the server may answer, a run at rest can be continued
    by a round. */
module Rounds {
  import opened Vip
  import opened RoomServer
  import opened Options
  import opened Membership
  import opened ClientRuns
  import opened Following
  import PeerView

  ghost predicate Going(net: Network, states: seq<State>, events: seq<Event>) {
    IsRun(net, states, events) && EveryJoinFindsRoom(states, events)
  }

  /** One room, no request under way, and nothing under way to me. */
  ghost predicate AtRest(s: State, r: RoomId, m: Members, me: PeerId) {
    && s.rooms == (if m == map[] then map[] else map[r := m])
    && m.Keys <= s.clients.Keys && me in s.clients && s.clients[me].down == []
    && forall id :: id in s.clients ==> Placed(s.clients[id], r, id in m)
  }

  predicate Placed(c: Client, r: RoomId, member: bool) {
    c.up == [] && c.room == if member then Some(r) else None
  }

  // ---------------------------------------------------------------- the server has an answer

  lemma {:induction false} SomeEnumeration(ids: set<PeerId>) returns (order: seq<PeerId>)
    ensures Enumerates(order, ids)
    decreases ids
  {
    if ids == {} {
      order := [];
    } else {
      var id :| id in ids;
      var rest := SomeEnumeration(ids - {id});
      order := rest + [id];
      assert forall x :: x in order <==> x in rest || x == id;
      assert forall x :: x in ids <==> x in ids - {id} || x == id;
    }
  }

  lemma SomeBroadcast(t: Table, msg: Msg) returns (sent: seq<Datagram>)
    ensures IsBroadcast(sent, t, msg)
  {
    var order := SomeEnumeration(t.Keys);
    assert forall i :: 0 <= i < |order| ==> order[i] in t.Keys;
    sent := SendAll(order, t, msg);
  }

  lemma {:induction false} SomeListing(t: Table) returns (list: seq<PeerInfo>)
    ensures IsListing(list, t)
    decreases t.Keys
  {
    if t == map[] {
      list := [];
    } else {
      var id :| id in t;
      var rest := t - {id};
      assert rest.Keys == t.Keys - {id};
      list := SomeListing(rest);
      PeerView.ListMore(list, rest, id, t[id]);
      assert rest[id := t[id]] == t;
      list := list + [PeerInfo(id, t[id])];
    }
  }

  lemma SomeJoinReplies(t: Table, id: PeerId, remote: Endpoint) returns (sent: seq<Datagram>)
    requires id in t
    ensures JoinReplies(sent, t, id, remote)
  {
    var list := SomeListing(t);
    assert PeerInfo(id, t[id]) in list;
    var i :| 0 <= i < |list| && list[i] == PeerInfo(id, t[id]);
    var others := SomeBroadcast(t - {id}, PeerAddress(PeerInfo(id, Info(t[id].vip, remote))));
    sent := [Datagram(remote, RoomStatus(list, i, t[id].vip))] + others;
    assert sent[1..] == others;
  }

  // ---------------------------------------------------------------- one more event

  lemma {:induction false} ScriptPrefix(states: seq<State>, events: seq<Event>, s: State, e: Event, me: PeerId, n: nat)
    requires n <= |events| < |states|
    ensures Script(states + [s], events + [e], me, n) == Script(states, events, me, n)
    decreases n
  {
    if n > 0 {
      ScriptPrefix(states, events, s, e, me, n - 1);
    }
  }

  lemma GoingOn(net: Network, states: seq<State>, events: seq<Event>, e: Event, s': State)
    requires Going(net, states, events)
    requires Next(net, states[|events|], e, s') && JoinFindsRoom(states[|events|], e)
    ensures Going(net, states + [s'], events + [e])
  {
    var states', events' := states + [s'], events + [e];
    forall i | 0 <= i < |events'|
      ensures Next(net, states'[i], events'[i], states'[i + 1]) && JoinFindsRoom(states'[i], events'[i])
    {
      if i < |events| {
        assert Next(net, states[i], events[i], states[i + 1]) && JoinFindsRoom(states[i], events[i]);
      }
    }
  }

  /** A run so far leads to s, and has me do the script. */
  ghost predicate Came(net: Network, states: seq<State>, events: seq<Event>, s: State, me: PeerId, script: seq<Act>) {
    Going(net, states, events) && states[|events|] == s && Script(states, events, me, |events|) == script
  }

  /** One may come from s to s', doing the script more. */
  ghost predicate Leads(net: Network, s: State, e: Event, s': State, me: PeerId, script: seq<Act>) {
    Next(net, s, e, s') && JoinFindsRoom(s, e) && EventActs(s, e, me) == script
  }

  lemma OneMore(net: Network, states: seq<State>, events: seq<Event>, s: State, me: PeerId, script: seq<Act>,
                e: Event, s': State, more: seq<Act>) returns (states': seq<State>, events': seq<Event>)
    requires Came(net, states, events, s, me, script) && Leads(net, s, e, s', me, more)
    ensures Came(net, states', events', s', me, script + more)
  {
    GoingOn(net, states, events, e, s');
    ScriptPrefix(states, events, s', e, me, |events|);
    states', events' := states + [s'], events + [e];
  }

  lemma TwoMore(net: Network, states: seq<State>, events: seq<Event>, s: State, me: PeerId, script: seq<Act>,
                e1: Event, s1: State, e2: Event, s2: State) returns (states': seq<State>, events': seq<Event>)
    requires Came(net, states, events, s, me, script) && Leads(net, s, e1, s1, me, []) && Leads(net, s1, e2, s2, me, [])
    ensures Came(net, states', events', s2, me, script)
  {
    assert script + [] == script;
    var states1, events1 := OneMore(net, states, events, s, me, script, e1, s1, []);
    states', events' := OneMore(net, states1, events1, s1, me, script, e2, s2, []);
  }

  // ---------------------------------------------------------------- a round

  /** The server has been asked, and everyone else is at rest. */
  ghost predicate Asked(s: State, r: RoomId, m: Members, me: PeerId, id: PeerId, req: Request, room: Option<RoomId>) {
    && s.rooms == (if m == map[] then map[] else map[r := m])
    && m.Keys <= s.clients.Keys && me in s.clients && s.clients[me].down == []
    && id in s.clients && s.clients[id].up == [req] && s.clients[id].room == room
    && forall k :: k in s.clients && k != id ==> Placed(s.clients[k], r, k in m)
  }

  /** It has answered, and msg is under way to me. */
  ghost predicate Answered(s: State, r: RoomId, m: Members, me: PeerId, msg: Msg) {
    && s.rooms == (if m == map[] then map[] else map[r := m])
    && m.Keys <= s.clients.Keys && me in s.clients && s.clients[me].down == [msg]
    && forall id :: id in s.clients ==> Placed(s.clients[id], r, id in m)
  }

  lemma ReceiveStep(net: Network, s: State, r: RoomId, m: Members, me: PeerId, msg: Msg) returns (s': State)
    requires Answered(s, r, m, me, msg)
    ensures Next(net, s, ClientReceives(me), s') && AtRest(s', r, m, me) && s'.clients.Keys == s.clients.Keys
    ensures EventActs(s, ClientReceives(me), me) == MessageActs(me, msg)
  {
    var c := s.clients[me];
    s' := s.(clients := s.clients[me := c.(view := Apply(me, c.view, msg), down := [])]);
    assert c.down[1..] == [];
  }

  lemma AnsweredClients(net: Network, s: State, r: RoomId, m: Members, me: PeerId, id: PeerId, req: Request,
                        sent: seq<Datagram>, m': Members)
    requires Asked(s, r, m, me, id, req, if id in m' then Some(r) else None)
    requires forall k :: k != id ==> (k in m <==> k in m')
    ensures var clients := Arrive(net, Taken(s, id), sent);
            && clients.Keys == s.clients.Keys && clients[me].down == Received(net, me, sent)
            && forall k :: k in clients ==> Placed(clients[k], r, k in m')
  {
    assert Taken(s, id)[id].up == [];
    assert [] + Received(net, me, sent) == Received(net, me, sent);
  }

  lemma AnsweredStep(net: Network, s: State, r: RoomId, m: Members, me: PeerId, id: PeerId, req: Request, now: int,
                     sent: seq<Datagram>, msg: Msg, m': Members) returns (s': State)
    requires Asked(s, r, m, me, id, req, if id in m' then Some(r) else None)
    requires Handled(s.rooms, id, req, now, sent, if m' == map[] then map[] else map[r := m'])
    requires m'.Keys <= s.clients.Keys && (forall k :: k != id ==> (k in m <==> k in m'))
    requires Received(net, me, sent) == [msg]
    ensures Next(net, s, ServerHandles(id, now, sent), s') && Answered(s', r, m', me, msg)
    ensures s'.clients.Keys == s.clients.Keys
  {
    s' := State(if m' == map[] then map[] else map[r := m'], Arrive(net, Taken(s, id), sent));
    AnsweredClients(net, s, r, m, me, id, req, sent, m');
  }

  lemma JoinAsked(net: Network, s: State, r: RoomId, m: Members, me: PeerId, id: PeerId, from: Endpoint)
      returns (s': State)
    requires AtRest(s, r, m, me) && id in s.clients && from in net && net[from] == id
    ensures Next(net, s, ClientJoins(id, r, from), s') && s'.clients.Keys == s.clients.Keys
    ensures Asked(s', r, m, me, id, JoinRequest(r, from), Some(r))
  {
    var c := s.clients[id];
    s' := s.(clients := s.clients[id := c.(room := Some(r), up := c.up + [JoinRequest(r, from)])]);
  }

  lemma LeaveAsked(net: Network, s: State, r: RoomId, m: Members, me: PeerId, id: PeerId) returns (s': State)
    requires AtRest(s, r, m, me) && id in m && id != me
    ensures Next(net, s, ClientLeaves(id), s') && s'.clients.Keys == s.clients.Keys
    ensures Asked(s', r, m, me, id, LeaveRequest(r), None)
  {
    var c := s.clients[id];
    assert Placed(c, r, true);
    s' := s.(clients := s.clients[id := c.(view := EMPTY_VIEW, room := None, up := c.up + [LeaveRequest(r)])]);
  }

  /** The message a join sends to a member, or to the newcomer. */
  ghost predicate JoinMessage(msg: Msg, m': Members, me: PeerId, id: PeerId)
    requires id in m'
  {
    if me == id then msg.RoomStatus? && IsListing(msg.peers, Public(m'))
    else msg == PeerAddress(PeerInfo(id, Public(m')[id]))
  }

  lemma JoinAnswered(net: Network, s: State, r: RoomId, m: Members, me: PeerId, id: PeerId, from: Endpoint, now: int)
      returns (s': State, sent: seq<Datagram>, msg: Msg)
    requires Asked(s, r, m, me, id, JoinRequest(r, from), Some(r)) && (me == id || me in m)
    requires Reachable(net, m) && from in net && net[from] == id
    ensures Next(net, s, ServerHandles(id, now, sent), s') && s'.clients.Keys == s.clients.Keys
    ensures Answered(s', r, JoinStep(m, id, from, now), me, msg) && JoinMessage(msg, JoinStep(m, id, from, now), me, id)
  {
    var m' := JoinStep(m, id, from, now);
    sent, msg := JoinHeard(net, m, me, id, from, now);
    assert JoinRooms(s.rooms, r, id, from, now) == map[r := m'];
    s' := AnsweredStep(net, s, r, m, me, id, JoinRequest(r, from), now, sent, msg, m');
  }

  lemma JoinHeard(net: Network, m: Members, me: PeerId, id: PeerId, from: Endpoint, now: int)
      returns (sent: seq<Datagram>, msg: Msg)
    requires Reachable(net, m) && from in net && net[from] == id && (me == id || me in m)
    ensures JoinReplies(sent, Public(JoinStep(m, id, from, now)), id, from)
    ensures Received(net, me, sent) == [msg] && JoinMessage(msg, JoinStep(m, id, from, now), me, id)
  {
    var t := Public(JoinStep(m, id, from, now));
    sent := SomeJoinReplies(t, id, from);
    JoinReceived(net, me, sent, t, id, from);
    msg := if me == id then sent[0].msg else PeerAddress(PeerInfo(id, t[id]));
  }

  lemma LeaveHeard(net: Network, m': Members, me: PeerId, id: PeerId) returns (sent: seq<Datagram>)
    requires Reachable(net, m') && me in m'
    ensures IsBroadcast(sent, Public(m'), PeerLeave(id)) && Received(net, me, sent) == [PeerLeave(id)]
  {
    sent := SomeBroadcast(Public(m'), PeerLeave(id));
    IsBroadcastReceived(net, me, sent, Public(m'), PeerLeave(id));
  }

  lemma LeaveAnswered(net: Network, s: State, r: RoomId, m: Members, me: PeerId, id: PeerId, now: int)
      returns (s': State, sent: seq<Datagram>)
    requires Asked(s, r, m, me, id, LeaveRequest(r), None) && me in m && id in m && id != me && Reachable(net, m)
    ensures Next(net, s, ServerHandles(id, now, sent), s') && s'.clients.Keys == s.clients.Keys
    ensures Answered(s', r, m - {id}, me, PeerLeave(id))
  {
    var m' := m - {id};
    assert me in m';
    sent := LeaveHeard(net, m', me, id);
    assert LeaveRooms(s.rooms, r, id) == map[r := m'];
    s' := AnsweredStep(net, s, r, m, me, id, LeaveRequest(r), now, sent, PeerLeave(id), m');
  }

  /** A run so far that has come to rest, and what it has me do. */
  ghost predicate Reached(net: Network, states: seq<State>, events: seq<Event>, r: RoomId, m: Members, me: PeerId,
                          ids: set<PeerId>, script: seq<Act>) {
    && |states| == |events| + 1 && Came(net, states, events, states[|events|], me, script)
    && AtRest(states[|events|], r, m, me) && states[|events|].clients.Keys == ids
  }

  lemma JoinRound(net: Network, states: seq<State>, events: seq<Event>, r: RoomId, m: Members, me: PeerId,
                  ids: set<PeerId>, script: seq<Act>, id: PeerId, from: Endpoint, now: int)
      returns (states': seq<State>, events': seq<Event>, msg: Msg)
    requires Reached(net, states, events, r, m, me, ids, script) && id in ids && (me == id || me in m)
    requires from in net && net[from] == id && |m| < CAPACITY
    ensures JoinMessage(msg, JoinStep(m, id, from, now), me, id)
    ensures Reached(net, states', events', r, JoinStep(m, id, from, now), me, ids, script + MessageActs(me, msg))
  {
    var s := states[|events|];
    MembersReachable(net, states, events, r, m, me);
    var s1 := JoinAsked(net, s, r, m, me, id, from);
    var s2, sent, said := JoinAnswered(net, s1, r, m, me, id, from, now);
    msg := said;
    var s3 := ReceiveStep(net, s2, r, JoinStep(m, id, from, now), me, msg);
    var states2, events2 :=
      TwoMore(net, states, events, s, me, script, ClientJoins(id, r, from), s1, ServerHandles(id, now, sent), s2);
    states', events' := OneMore(net, states2, events2, s2, me, script, ClientReceives(me), s3, MessageActs(me, msg));
  }

  lemma LeaveRound(net: Network, states: seq<State>, events: seq<Event>, r: RoomId, m: Members, me: PeerId,
                   ids: set<PeerId>, script: seq<Act>, id: PeerId, now: int)
      returns (states': seq<State>, events': seq<Event>)
    requires Reached(net, states, events, r, m, me, ids, script) && id in m && me in m && me != id
    ensures Reached(net, states', events', r, m - {id}, me, ids, script + MessageActs(me, PeerLeave(id)))
  {
    var s := states[|events|];
    MembersReachable(net, states, events, r, m, me);
    var s1 := LeaveAsked(net, s, r, m, me, id);
    var s2, sent := LeaveAnswered(net, s1, r, m, me, id, now);
    var s3 := ReceiveStep(net, s2, r, m - {id}, me, PeerLeave(id));
    var states2, events2 :=
      TwoMore(net, states, events, s, me, script, ClientLeaves(id), s1, ServerHandles(id, now, sent), s2);
    states', events' :=
      OneMore(net, states2, events2, s2, me, script, ClientReceives(me), s3, MessageActs(me, PeerLeave(id)));
  }

  lemma MembersReachable(net: Network, states: seq<State>, events: seq<Event>, r: RoomId, m: Members, me: PeerId)
    requires Going(net, states, events) && AtRest(states[|events|], r, m, me)
    ensures Reachable(net, m)
  {
    RunKeepsInv(net, states, events);
    if m != map[] {
      assert Reachable(net, states[|events|].rooms[r]);
    }
  }

  /** Before anything has happened. */
  lemma Outset(net: Network, r: RoomId, me: PeerId, ids: set<PeerId>) returns (states: seq<State>)
    requires me in ids
    ensures Reached(net, states, [], r, map[], me, ids, [])
  {
    states := [State(map[], map id | id in ids :: Client(EMPTY_VIEW, None, [], []))];
  }
}
