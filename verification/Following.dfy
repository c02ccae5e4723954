/** One client's run beside a run of the whole system: the acts that record peers, close channels or
    leave the room are those the client's messages and leaves call for, in that order; the acts of its
    other goroutines come in between at will. */
module Following {
  import opened Vip
  import opened RoomServer
  import opened Options
  import opened Membership
  import opened ClientRuns

  // ---------------------------------------------------------------- what a run was told

  /** The acts that only messages and leaving the room bring about. */
  predicate Scripted(act: Act) {
    act.Forget? || act.NoteSelf? || act.Note? || act.Drop? || act.DropChannel? || act.DropChannels? || act.CloseWaiting?
  }

  function ScriptPart(acts: seq<Act>): seq<Act> {
    if |acts| == 0 then []
    else (if Scripted(acts[0]) then [acts[0]] else []) + ScriptPart(acts[1..])
  }

  /** All peers it was told of, and all numbers it was told for itself. */
  function Told(acts: seq<Act>): set<PeerInfo> {
    if |acts| == 0 then {} else HeardBy(acts[0]) + Told(acts[1..])
  }

  function ToldOwn(acts: seq<Act>): set<nat> {
    if |acts| == 0 then {} else OwnBy(acts[0]) + ToldOwn(acts[1..])
  }

  function RecordOf(v: View, acts: seq<Act>): View
    decreases |acts|
  {
    if |acts| == 0 then v else RecordOf(RecordAfter(v, acts[0]), acts[1..])
  }

  lemma First(v: View, act: Act, rest: seq<Act>)
    ensures RecordOf(v, [act] + rest) == RecordOf(RecordAfter(v, act), rest)
    ensures Told([act] + rest) == HeardBy(act) + Told(rest)
    ensures ScriptPart([act] + rest) == (if Scripted(act) then [act] else []) + ScriptPart(rest)
  {
    assert ([act] + rest)[1..] == rest;
  }

  lemma {:induction false} ScriptAppended(a: seq<Act>, b: seq<Act>)
    ensures ScriptPart(a + b) == ScriptPart(a) + ScriptPart(b)
    decreases |a|
  {
    if |a| == 0 {
      assert a + b == b;
    } else {
      assert (a + b)[0] == a[0] && (a + b)[1..] == a[1..] + b;
      ScriptAppended(a[1..], b);
    }
  }

  lemma {:induction false} NothingScripted(acts: seq<Act>)
    requires forall act :: act in acts ==> !Scripted(act)
    ensures ScriptPart(acts) == []
    decreases |acts|
  {
    if |acts| > 0 {
      NothingScripted(acts[1..]);
    }
  }

  lemma {:induction false} AllScripted(acts: seq<Act>)
    requires forall act :: act in acts ==> Scripted(act)
    ensures ScriptPart(acts) == acts
    decreases |acts|
  {
    if |acts| > 0 {
      AllScripted(acts[1..]);
    }
  }

  /** Scripted acts, then others. */
  lemma ScriptMoreActs(acts: seq<Act>, notes: seq<Act>, rest: seq<Act>)
    requires (forall act :: act in notes ==> Scripted(act)) && (forall act :: act in rest ==> !Scripted(act))
    ensures ScriptPart(acts + (notes + rest)) == ScriptPart(acts) + notes
  {
    AllScripted(notes);
    NothingScripted(rest);
    ScriptAppended(notes, rest);
    ScriptAppended(acts, notes + rest);
  }

  lemma {:induction false} ToldAppended(a: seq<Act>, b: seq<Act>)
    ensures Told(a + b) == Told(a) + Told(b)
    decreases |a|
  {
    if |a| == 0 {
      assert a + b == b;
    } else {
      assert (a + b)[0] == a[0] && (a + b)[1..] == a[1..] + b;
      ToldAppended(a[1..], b);
    }
  }

  lemma {:induction false} RecordAppended(v: View, a: seq<Act>, b: seq<Act>)
    ensures RecordOf(v, a + b) == RecordOf(RecordOf(v, a), b)
    decreases |a|
  {
    if |a| == 0 {
      assert a + b == b;
    } else {
      assert (a + b)[0] == a[0] && (a + b)[1..] == a[1..] + b;
      RecordAppended(RecordAfter(v, a[0]), a[1..], b);
    }
  }

  /** The record and what was heard are told by the scripted acts alone. */
  lemma {:induction false} ScriptSuffices(v: View, acts: seq<Act>)
    ensures RecordOf(v, acts) == RecordOf(v, ScriptPart(acts)) && Told(acts) == Told(ScriptPart(acts))
    decreases |acts|
  {
    if |acts| > 0 {
      ScriptSuffices(RecordAfter(v, acts[0]), acts[1..]);
      if Scripted(acts[0]) {
        First(v, acts[0], ScriptPart(acts[1..]));
      } else {
        assert ScriptPart(acts) == ScriptPart(acts[1..]);
      }
    }
  }

  lemma ActTold(s: Local, act: Act)
    requires Enabled(s, act)
    ensures After(s, act).heard == s.heard + HeardBy(act) && After(s, act).own == s.own + OwnBy(act)
    ensures After(s, act).record == RecordAfter(s.record, act)
  {
  }

  lemma {:induction false} ExecTold(s: Local, acts: seq<Act>)
    requires Legal(s, acts)
    ensures Exec(s, acts).heard == s.heard + Told(acts) && Exec(s, acts).own == s.own + ToldOwn(acts)
    ensures Exec(s, acts).record == RecordOf(s.record, acts)
    decreases |acts|
  {
    if |acts| > 0 {
      ExecTold(After(s, acts[0]), acts[1..]);
      ActTold(s, acts[0]);
    }
  }

  // ---------------------------------------------------------------- following a run of the system

  /** The client's acts at an event of the system: the handler of the message it receives, or LeaveRoom. */
  ghost function EventActs(s: State, e: Event, me: PeerId): seq<Act> {
    match e
    case ClientReceives(id) =>
      if id == me && me in s.clients && |s.clients[me].down| > 0 then MessageActs(me, s.clients[me].down[0]) else []
    case ClientLeaves(id) => if id == me then [CloseWaiting, DropChannels, Forget] else []
    case _ => []
  }

  function ActsOf(me: PeerId, msgs: seq<Msg>): seq<Act> {
    if |msgs| == 0 then [] else ActsOf(me, msgs[..|msgs| - 1]) + MessageActs(me, msgs[|msgs| - 1])
  }

  ghost function Script(states: seq<State>, events: seq<Event>, me: PeerId, n: nat): seq<Act>
    requires n <= |events| < |states|
  {
    if n == 0 then [] else Script(states, events, me, n - 1) + EventActs(states[n - 1], events[n - 1], me)
  }

  ghost predicate Follows(acts: seq<Act>, states: seq<State>, events: seq<Event>, me: PeerId)
    requires |events| < |states|
  {
    ScriptPart(acts) == Script(states, events, me, |events|)
  }

  lemma {:induction false} NoteAllActs(me: PeerId, infos: seq<PeerInfo>)
    ensures RecordOf(EMPTY_VIEW, NoteAll(me, infos)) == ApplyStatus(me, infos)
    ensures forall p :: p in Told(NoteAll(me, infos)) ==> p in infos
    decreases |infos|
  {
    if |infos| > 0 {
      var p := infos[|infos| - 1];
      var init, last := NoteAll(me, infos[..|infos| - 1]), if p.id == me then NoteSelf(p.info) else Note(p);
      NoteAllActs(me, infos[..|infos| - 1]);
      RecordAppended(EMPTY_VIEW, init, [last]);
      ToldAppended(init, [last]);
      First(RecordOf(EMPTY_VIEW, init), last, []);
      assert [last] + [] == [last];
    }
  }

  /** Peers a message names. */
  function Named(msg: Msg): set<PeerInfo> {
    match msg
    case RoomStatus(peers, _, _) => set p | p in peers
    case PeerAddress(p) => {p}
    case PeerLeave(_) => {}
  }

  lemma {:induction false} MessageTells(me: PeerId, v: View, msg: Msg)
    ensures RecordOf(v, MessageActs(me, msg)) == Apply(me, v, msg)
    ensures Told(MessageActs(me, msg)) <= Named(msg)
  {
    match msg
    case RoomStatus(infos, _, _) =>
      NoteAllActs(me, infos);
      First(v, Forget, NoteAll(me, infos));
    case PeerAddress(p) =>
      First(v, Note(p), []);
      assert [Note(p)] + [] == [Note(p)];
    case PeerLeave(id) =>
      Two(v, Drop(id), DropChannel(id));
  }

  lemma Two(v: View, a: Act, b: Act)
    ensures RecordOf(v, [a, b]) == RecordAfter(RecordAfter(v, a), b) && Told([a, b]) == HeardBy(a) + HeardBy(b)
  {
    First(v, a, [b]);
    First(RecordAfter(v, a), b, []);
    assert [b] + [] == [b] && [a] + [b] == [a, b];
  }

  lemma LeaveTells(v: View)
    ensures RecordOf(v, [CloseWaiting, DropChannels, Forget]) == EMPTY_VIEW
    ensures Told([CloseWaiting, DropChannels, Forget]) == {}
  {
    First(v, CloseWaiting, [DropChannels, Forget]);
    Two(v, DropChannels, Forget);
    assert [CloseWaiting] + [DropChannels, Forget] == [CloseWaiting, DropChannels, Forget];
  }

  /** They turn the client's view before the event into the one after it. */
  ghost predicate Records(s: State, e: Event, s': State, me: PeerId) {
    me in s.clients ==>
      me in s'.clients && RecordOf(s.clients[me].view, EventActs(s, e, me)) == s'.clients[me].view
  }

  lemma EventRecords(net: Network, s: State, e: Event, s': State, me: PeerId)
    requires Next(net, s, e, s')
    ensures Records(s, e, s', me)
  {
    match e
    case ClientReceives(id) =>
      if id == me && me in s.clients { MessageTells(me, s.clients[me].view, s.clients[me].down[0]); }
    case ClientLeaves(id) =>
      if id == me && me in s.clients { LeaveTells(s.clients[me].view); }
    case _ =>
  }

  lemma ScriptMore(states: seq<State>, events: seq<Event>, me: PeerId, n: nat)
    requires 0 < n <= |events| < |states|
    ensures var before, acts := Script(states, events, me, n - 1), EventActs(states[n - 1], events[n - 1], me);
            && RecordOf(EMPTY_VIEW, Script(states, events, me, n)) == RecordOf(RecordOf(EMPTY_VIEW, before), acts)
            && Told(Script(states, events, me, n)) == Told(before) + Told(acts)
  {
    var before, acts := Script(states, events, me, n - 1), EventActs(states[n - 1], events[n - 1], me);
    RecordAppended(EMPTY_VIEW, before, acts);
    ToldAppended(before, acts);
  }

  lemma {:induction false} ScriptFolds(states: seq<State>, events: seq<Event>, me: PeerId, n: nat)
    requires n <= |events| < |states| && me in states[0].clients && states[0].clients[me].view == EMPTY_VIEW
    requires forall i :: 0 <= i < |events| ==> Records(states[i], events[i], states[i + 1], me)
    ensures me in states[n].clients && RecordOf(EMPTY_VIEW, Script(states, events, me, n)) == states[n].clients[me].view
    decreases n
  {
    if n > 0 {
      ScriptFolds(states, events, me, n - 1);
      assert Records(states[n - 1], events[n - 1], states[n - 1 + 1], me);
      ScriptMore(states, events, me, n);
    }
  }

  lemma ScriptRecords(net: Network, states: seq<State>, events: seq<Event>, me: PeerId)
    requires IsRun(net, states, events) && me in states[0].clients
    ensures var n := |events|;
            me in states[n].clients && RecordOf(EMPTY_VIEW, Script(states, events, me, n)) == states[n].clients[me].view
  {
    forall i | 0 <= i < |events| ensures Records(states[i], events[i], states[i + 1], me) {
      EventRecords(net, states[i], events[i], states[i + 1], me);
    }
    ScriptFolds(states, events, me, |events|);
  }

  // ---------------------------------------------------------------- every endpoint told is its owner's

  ghost predicate InfoReaches(net: Network, p: PeerInfo) {
    p.info.addr in net && net[p.info.addr] == p.id
  }

  ghost predicate AllReach(net: Network, msgs: seq<Msg>) {
    forall msg, p :: msg in msgs && p in Named(msg) ==> InfoReaches(net, p)
  }

  ghost predicate SentReach(net: Network, sent: seq<Datagram>) {
    forall d, p :: d in sent && p in Named(d.msg) ==> InfoReaches(net, p)
  }

  /** Whatever is under way to a client names peers by endpoints of theirs. */
  ghost predicate QueuesReach(net: Network, s: State) {
    forall id :: id in s.clients ==> AllReach(net, s.clients[id].down)
  }

  lemma {:induction false} ReceivedReach(net: Network, me: PeerId, sent: seq<Datagram>)
    requires SentReach(net, sent)
    ensures AllReach(net, Received(net, me, sent))
    decreases |sent|
  {
    if |sent| > 0 {
      ReceivedReach(net, me, sent[..|sent| - 1]);
      assert sent[|sent| - 1] in sent;
    }
  }

  lemma {:induction false} SendAllSends(order: seq<PeerId>, t: Table, msg: Msg)
    requires forall i :: 0 <= i < |order| ==> order[i] in t
    ensures forall d :: d in SendAll(order, t, msg) ==> d.msg == msg
    decreases |order|
  {
    if |order| > 0 {
      SendAllSends(order[..|order| - 1], t, msg);
    }
  }

  lemma BroadcastSends(sent: seq<Datagram>, t: Table, msg: Msg)
    requires IsBroadcast(sent, t, msg)
    ensures forall d :: d in sent ==> d.msg == msg
  {
    var order :| Enumerates(order, t.Keys) && sent == SendAll(order, t, msg);
    SendAllSends(order, t, msg);
  }

  lemma JoinSends(net: Network, sent: seq<Datagram>, m: Members, id: PeerId, remote: Endpoint)
    requires id in m && m[id].addr == remote && Reachable(net, m) && JoinReplies(sent, Public(m), id, remote)
    ensures SentReach(net, sent)
  {
    var t := Public(m);
    BroadcastSends(sent[1..], t - {id}, PeerAddress(PeerInfo(id, Info(t[id].vip, remote))));
    forall d, p | d in sent && p in Named(d.msg) ensures InfoReaches(net, p) {
      if d == sent[0] {
        assert p.id in t && t[p.id] == p.info;
      } else {
        assert d in sent[1..];
      }
    }
  }

  lemma {:induction false} ScanSends(net: Network, batches: seq<seq<Datagram>>, rooms: Rooms,
                                     report: seq<(RoomId, PeerId)>)
    requires ScanReplies(batches, rooms, report)
    ensures SentReach(net, Flat(batches))
    decreases |report|
  {
    if |report| > 0 {
      var n := |report| - 1;
      ScanSends(net, batches[..n], rooms, report[..n]);
      assert ScanReply(batches[n], rooms, report[n].0, report[n].1);
      if report[n].0 in rooms {
        BroadcastSends(batches[n], Public(rooms[report[n].0]), PeerLeave(report[n].1));
      }
    }
  }

  lemma HandledSends(net: Network, rooms: Rooms, id: PeerId, req: Request, now: int, sent: seq<Datagram>, rooms': Rooms)
    requires Handled(rooms, id, req, now, sent, rooms')
    requires forall r :: r in rooms' ==> Reachable(net, rooms'[r])
    ensures SentReach(net, sent)
  {
    match req
    case JoinRequest(r, from) => JoinSends(net, sent, rooms'[r], id, from);
    case LeaveRequest(r) =>
      if r in rooms { BroadcastSends(sent, Public(rooms[r] - {id}), PeerLeave(id)); }
    case PingRequest(_) =>
  }

  lemma ArriveReach(net: Network, rooms: Rooms, clients: map<PeerId, Client>, sent: seq<Datagram>)
    requires QueuesReach(net, State(rooms, clients)) && SentReach(net, sent)
    ensures QueuesReach(net, State(rooms, Arrive(net, clients, sent)))
  {
    var arrived := Arrive(net, clients, sent);
    forall id | id in arrived ensures AllReach(net, arrived[id].down) {
      assert AllReach(net, clients[id].down);
      ReceivedReach(net, id, sent);
    }
  }

  lemma NextReaches(net: Network, s: State, e: Event, s': State)
    requires QueuesReach(net, s) && Owned(net, s') && Next(net, s, e, s')
    ensures QueuesReach(net, s')
  {
    match e
    case ServerScans(_, _, report, batches) =>
      ScanSends(net, batches, s'.rooms, report);
      ArriveReach(net, s'.rooms, s.clients, Flat(batches));
    case ServerHandles(id, now, sent) =>
      HandledSends(net, s.rooms, id, s.clients[id].up[0], now, sent, s'.rooms);
      assert QueuesReach(net, State(s'.rooms, Taken(s, id)));
      ArriveReach(net, s'.rooms, Taken(s, id), sent);
    case ClientReceives(id) =>
      assert AllReach(net, s.clients[id].down);
    case _ =>
  }

  /** In every reachable state each endpoint under way to a client is one of the peer it is named for. */
  lemma {:induction false} RunReaches(net: Network, states: seq<State>, events: seq<Event>)
    requires IsRun(net, states, events)
    ensures QueuesReach(net, states[|events|])
    decreases |events|
  {
    if |events| > 0 {
      var n := |events| - 1;
      RunReaches(net, states[..|events|], events[..n]);
      RunKeepsInv(net, states, events);
      NextReaches(net, states[n], events[n], states[n + 1]);
    }
  }

  lemma EventTells(net: Network, s: State, e: Event, me: PeerId)
    requires QueuesReach(net, s)
    ensures forall p :: p in Told(EventActs(s, e, me)) ==> InfoReaches(net, p)
  {
    if e.ClientReceives? && e.id == me && me in s.clients && |s.clients[me].down| > 0 {
      assert AllReach(net, s.clients[me].down);
      assert s.clients[me].down[0] in s.clients[me].down;
      MessageTells(me, EMPTY_VIEW, s.clients[me].down[0]);
    }
    LeaveTells(EMPTY_VIEW);
  }

  lemma {:induction false} ScriptTells(net: Network, states: seq<State>, events: seq<Event>, me: PeerId, n: nat)
    requires IsRun(net, states, events) && n <= |events|
    ensures forall p :: p in Told(Script(states, events, me, n)) ==> InfoReaches(net, p)
    decreases n
  {
    if n > 0 {
      ScriptTells(net, states, events, me, n - 1);
      assert IsRun(net, states[..n], events[..n - 1]);
      RunReaches(net, states[..n], events[..n - 1]);
      EventTells(net, states[n - 1], events[n - 1], me);
      ScriptMore(states, events, me, n);
    }
  }

  lemma ClientsStay(net: Network, s: State, e: Event, s': State)
    requires Next(net, s, e, s')
    ensures s'.clients.Keys == s.clients.Keys
  {
  }

  lemma {:induction false} SameClients(net: Network, states: seq<State>, events: seq<Event>)
    requires IsRun(net, states, events)
    ensures states[|events|].clients.Keys == states[0].clients.Keys
    decreases |events|
  {
    if |events| > 0 {
      var n := |events| - 1;
      SameClients(net, states[..|events|], events[..n]);
      ClientsStay(net, states[n], events[n], states[n + 1]);
    }
  }

  /** A client that follows a run of the system records what the protocol says, and whatever it has
      ever heard of a peer carries an endpoint of that peer's. */
  lemma FollowerRecords(net: Network, states: seq<State>, events: seq<Event>, me: PeerId, start: Local, acts: seq<Act>)
    requires IsRun(net, states, events) && me in states[|events|].clients
    requires Start(start) && Legal(start, acts) && Follows(acts, states, events, me)
    ensures Exec(start, acts).record == states[|events|].clients[me].view
    ensures forall p :: p in Exec(start, acts).heard ==> InfoReaches(net, p)
  {
    SameClients(net, states, events);
    ExecTold(start, acts);
    ScriptSuffices(EMPTY_VIEW, acts);
    ScriptRecords(net, states, events, me);
    ScriptTells(net, states, events, me, |events|);
  }
}
