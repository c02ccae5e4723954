/** The server's message handlers (server/internal/signaling/signaling.go) over the room manager.
    A handler returns the datagrams it sends, in order; endpoints stand for the normalised address
    fields, and clocks are parameters. */
module Signaling {
  import opened Vip
  import opened RoomServer
  import opened Membership

  const SECOND: int := 1_000_000_000
  const HEARTBEAT_INTERVAL: int := 5 * SECOND
  const PEER_TIMEOUT: int := 15 * SECOND

  ghost function InfoOf(p: Peer): PeerInfo
    reads p
  {
    PeerInfo(p.id, Info(p.virtualIP, p.addr))
  }

  /** list is the table t, each member once, in some order. */
  ghost predicate Snapshot(list: seq<Peer>, t: Table)
    reads set i | 0 <= i < |list| :: list[i]
  {
    && Enumerates(Ids(list), t.Keys)
    && forall i :: 0 <= i < |list| ==> list[i].id in t && t[list[i].id] == InfoOf(list[i]).info
  }

  lemma SendAllStep(order: seq<PeerId>, i: nat, t: Table, msg: Msg)
    requires i < |order| && forall j :: 0 <= j <= i ==> order[j] in t
    ensures SendAll(order[..i + 1], t, msg) == SendAll(order[..i], t, msg) + [Datagram(t[order[i]].addr, msg)]
  {
    assert order[..i + 1][..i] == order[..i];
  }

  ghost predicate In(order: seq<PeerId>, t: Table) {
    forall i :: 0 <= i < |order| ==> order[i] in t
  }

  function Without(ids: seq<PeerId>, me: PeerId): seq<PeerId> {
    if |ids| == 0 then []
    else
      var before, last := Without(ids[..|ids| - 1], me), ids[|ids| - 1];
      if last == me then before else before + [last]
  }

  lemma SendExceptStep(ids: seq<PeerId>, i: nat, me: PeerId, t: Table, msg: Msg)
    requires i < |ids| && ids[i] in t && In(Without(ids[..i], me), t - {me})
    ensures In(Without(ids[..i + 1], me), t - {me})
    ensures SendAll(Without(ids[..i + 1], me), t - {me}, msg)
         == SendAll(Without(ids[..i], me), t - {me}, msg) + if ids[i] == me then [] else [Datagram(t[ids[i]].addr, msg)]
  {
    assert ids[..i + 1][..i] == ids[..i];
    if ids[i] != me {
      var order := Without(ids[..i], me) + [ids[i]];
      SendAllStep(order, |order| - 1, t - {me}, msg);
      assert order[..|order|] == order && order[..|order| - 1] == Without(ids[..i], me);
    }
  }

  lemma {:induction false} WithoutEnumerates(ids: seq<PeerId>, me: PeerId, s: set<PeerId>)
    requires Enumerates(ids, s)
    ensures Enumerates(Without(ids, me), s - {me})
    decreases |ids|
  {
    if |ids| > 0 {
      var init, last := ids[..|ids| - 1], ids[|ids| - 1];
      assert ids == init + [last];
      forall x ensures x in init <==> x in s - {last} {
        assert x in ids <==> x in init || x == last;
      }
      WithoutEnumerates(init, me, s - {last});
      if last == me {
        assert s - {last} - {me} == s - {me};
      } else {
        EnumeratesMore(Without(init, me), s - {last} - {me}, last);
        assert last in ids;
        assert s - {last} - {me} + {last} == s - {me};
      }
    }
  }

  lemma LeftRooms(before: Rooms, after: Rooms, r: RoomId, id: PeerId)
    requires r in before && after == before[r := before[r] - {id}]
    ensures LeaveRooms(before, r, id) == if after[r] == map[] then after - {r} else after
  {
    assert after - {r} == before - {r};
  }

  lemma EnterRooms(start: Rooms, rooms: Rooms, r: RoomId, id: PeerId, addr: Endpoint, now: int)
    requires rooms == if r in start then start else start[r := map[]]
    ensures rooms[r := JoinStep(rooms[r], id, addr, now)] == JoinRooms(start, r, id, addr, now)
  {
  }

  class RoomHandler {
    const mgr: Manager
    // The empty text, which a packet's missing fields decode to.
    const blank: Name

    constructor (mgr: Manager, blank: Name)
      ensures this.mgr == mgr && this.blank == blank
    {
      this.mgr, this.blank := mgr, blank;
    }

    /** The peers of a room as every handler snapshots them. */
    method SnapshotOf(r: Room) returns (list: seq<Peer>)
      requires r.Valid()
      ensures Snapshot(list, Public(r.View()))
    {
      list := r.PeerList();
      assert Public(r.View()).Keys == r.peers.Keys;
    }

    /** Create the peer, find or create its room, and join. */
    method Enter(roomId: RoomId, id: PeerId, nickName: Name, remote: Endpoint, now: int) returns (r: Room, vip: nat)
      requires mgr.Valid()
      modifies mgr, mgr.roomSet, mgr.peerSet
      ensures mgr.Valid() && roomId in mgr.rooms && r == mgr.rooms[roomId]
      ensures mgr.View() == JoinRooms(old(mgr.View()), roomId, id, remote, now)
      ensures vip == mgr.View()[roomId][id].vip
    {
      var p := new Peer(id, nickName, remote, now, roomId);
      assert mgr.View() == old(mgr.View());
      r := mgr.GetOrCreate(roomId);
      ghost var before := mgr.View();
      vip := mgr.JoinIn(roomId, p, now);
      mgr.ViewIs(before[roomId := JoinStep(before[roomId], id, remote, now)]);
      EnterRooms(old(mgr.View()), before, roomId, id, remote, now);
    }

    /** The infos of a RoomStatus, and where in it the receiver stands. */
    method StatusFor(list: seq<Peer>, me: PeerId, ghost t: Table) returns (infos: seq<PeerInfo>, localIndex: int)
      requires Snapshot(list, t) && me in t
      ensures IsListing(infos, t)
      ensures 0 <= localIndex < |infos| && infos[localIndex].id == me
    {
      infos, localIndex := [], -1;
      for i := 0 to |list|
        invariant |infos| == i && forall j :: 0 <= j < i ==> infos[j] == InfoOf(list[j])
        invariant -1 <= localIndex < i && (localIndex >= 0 ==> list[localIndex].id == me)
        invariant localIndex == -1 ==> forall j :: 0 <= j < i ==> list[j].id != me
      {
        var rp := list[i];
        infos := infos + [PeerInfo(rp.id, Info(rp.virtualIP, rp.addr))];
        if rp.id == me {
          localIndex := i;
        }
      }
      ListingFromSnapshot(list, infos, t);
      assert me in Ids(list);
    }

    lemma ListingFromSnapshot(list: seq<Peer>, infos: seq<PeerInfo>, t: Table)
      requires Snapshot(list, t)
      requires |infos| == |list| && forall j :: 0 <= j < |list| ==> infos[j] == InfoOf(list[j])
      ensures IsListing(infos, t)
    {
      forall p ensures p in infos <==> p.id in t && t[p.id] == p.info {
        if p.id in t && t[p.id] == p.info {
          assert p.id in Ids(list);
          var j :| 0 <= j < |list| && Ids(list)[j] == p.id;
          assert infos[j] == p;
        }
      }
      forall i, j | 0 <= i < j < |infos| ensures infos[i].id != infos[j].id {
        assert Ids(list)[i] != Ids(list)[j];
      }
    }

    /** One datagram with the message to every listed peer. */
    method Broadcast(list: seq<Peer>, msg: Msg, ghost t: Table) returns (out: seq<Datagram>)
      requires Snapshot(list, t)
      ensures IsBroadcast(out, t, msg)
    {
      out := [];
      ghost var order := Ids(list);
      for i := 0 to |list|
        invariant forall j :: 0 <= j < i ==> order[j] in t
        invariant out == SendAll(order[..i], t, msg)
      {
        out := out + [Datagram(list[i].addr, msg)];
        SendAllStep(order, i, t, msg);
      }
      assert order[..|list|] == order;
    }

    /** The same, passing over one peer. */
    method BroadcastExcept(list: seq<Peer>, me: PeerId, msg: Msg, ghost t: Table) returns (out: seq<Datagram>)
      requires Snapshot(list, t)
      ensures IsBroadcast(out, t - {me}, msg)
    {
      out := [];
      ghost var ids, rest := Ids(list), t - {me};
      for i := 0 to |list|
        invariant In(Without(ids[..i], me), rest)
        invariant out == SendAll(Without(ids[..i], me), rest, msg)
      {
        var rp := list[i];
        SendExceptStep(ids, i, me, t, msg);
        if rp.id == me {
          continue;
        }
        out := out + [Datagram(rp.addr, msg)];
      }
      assert ids[..|list|] == ids;
      WithoutEnumerates(ids, me, t.Keys);
    }

    /** A join request: the peer enters, gets the room's listing, and is announced to the others. */
    method HandleJoinRoom(remote: Endpoint, roomId: RoomId, peerId: PeerId, nick: Name, now: int)
        returns (out: seq<Datagram>)
      requires mgr.Valid()
      modifies mgr, mgr.roomSet, mgr.peerSet
      ensures mgr.Valid()
      ensures roomId == blank ==> out == [] && mgr.View() == old(mgr.View())
      ensures roomId != blank ==> Handled(old(mgr.View()), if peerId == blank then nick else peerId,
                                          JoinRequest(roomId, remote), now, out, mgr.View())
    {
      if roomId == blank {
        return [];
      }
      var id := if peerId == blank then nick else peerId;
      var nickName := if nick == blank then id else nick;
      var r, vip := Enter(roomId, id, nickName, remote, now);
      out := Welcome(r, id, remote, vip, Public(mgr.View()[roomId]));
    }

    method Welcome(r: Room, id: PeerId, remote: Endpoint, vip: nat, ghost t: Table) returns (out: seq<Datagram>)
      requires r.Valid() && t == Public(r.View()) && id in t && t[id] == Info(vip, remote)
      ensures JoinReplies(out, t, id, remote)
    {
      var list := SnapshotOf(r);
      var infos, localIndex := StatusFor(list, id, t);
      var others := BroadcastExcept(list, id, PeerAddress(PeerInfo(id, Info(vip, remote))), t);
      out := [Datagram(remote, RoomStatus(infos, localIndex, vip))] + others;
      assert out[1..] == others;
    }

    method Farewell(r: Room, id: PeerId, ghost t: Table) returns (out: seq<Datagram>)
      requires r.Valid() && t == Public(r.View())
      ensures IsBroadcast(out, t, PeerLeave(id))
    {
      var list := SnapshotOf(r);
      out := Broadcast(list, PeerLeave(id), t);
    }

    /** Drops the room once nobody is left in it. */
    method Reclaim(roomId: RoomId)
      requires mgr.Valid() && roomId in mgr.rooms
      modifies mgr`rooms
      ensures mgr.Valid()
      ensures mgr.View() == if old(mgr.View())[roomId] == map[] then old(mgr.View()) - {roomId} else old(mgr.View())
    {
      assert mgr.rooms[roomId].View().Keys == mgr.rooms[roomId].peers.Keys;
      if mgr.rooms[roomId].IsEmpty() {
        assert mgr.rooms[roomId].View() == map[];
        mgr.Remove(roomId);
      }
    }

    method RemoveMember(roomId: RoomId, peerId: PeerId)
      requires mgr.Valid() && roomId in mgr.rooms
      modifies mgr.rooms[roomId]
      ensures mgr.Valid() && mgr.View() == old(mgr.View())[roomId := old(mgr.View())[roomId] - {peerId}]
    {
      ghost var before := mgr.View();
      var _ := mgr.LeaveIn(roomId, peerId);
      mgr.ViewIs(before[roomId := before[roomId] - {peerId}]);
    }

    /** A leave request: the peer is removed, the rest are told, an emptied room is dropped. */
    method HandlePeerLeave(roomId: RoomId, peerId: PeerId) returns (out: seq<Datagram>)
      requires mgr.Valid()
      modifies mgr, mgr.roomSet
      ensures mgr.Valid()
      ensures roomId == blank || peerId == blank ==> out == [] && mgr.View() == old(mgr.View())
      ensures roomId != blank && peerId != blank ==>
                && mgr.View() == LeaveRooms(old(mgr.View()), roomId, peerId)
                && LeaveReplies(out, old(mgr.View()), roomId, peerId)
    {
      if roomId == blank || peerId == blank {
        return [];
      }
      var rm := mgr.Get(roomId);
      if rm == null {
        return [];
      }
      ghost var before := mgr.View();
      RemoveMember(roomId, peerId);
      ghost var after := mgr.View();
      out := Farewell(rm, peerId, Public(after[roomId]));
      assert mgr.View() == after;
      Reclaim(roomId);
      LeftRooms(before, after, roomId, peerId);
    }

    /** A heartbeat refreshes the timer of the peer it names, if the room has it. */
    method HandlePing(roomId: RoomId, peerId: PeerId, now: int)
      requires mgr.Valid()
      modifies mgr.peerSet
      ensures mgr.Valid()
      ensures mgr.View() == if roomId == blank || peerId == blank then old(mgr.View())
                            else TouchRooms(old(mgr.View()), roomId, peerId, now)
    {
      if roomId != blank && peerId != blank {
        var r := mgr.Get(roomId);
        if r != null {
          ghost var before := mgr.View();
          assert before[roomId].Keys == r.peers.Keys;
          if peerId in r.peers {
            mgr.TouchIn(roomId, peerId, now);
            mgr.ViewIs(before[roomId := TouchStep(before[roomId], peerId, now)]);
          } else {
            assert before[roomId := before[roomId]] == before;
          }
        }
      }
    }

    /** One timeout scan: the silent members go, and their rooms' survivors are told one by one. */
    method ScanAndClean(now: int)
        returns (out: seq<Datagram>, ghost report: seq<(RoomId, PeerId)>, ghost batches: seq<seq<Datagram>>)
      requires mgr.Valid()
      modifies mgr, mgr.roomSet
      ensures mgr.Valid() && mgr.View() == ScanRooms(old(mgr.View()), now, PEER_TIMEOUT)
      ensures Survive(old(mgr.View()), mgr.View(), now, 15_000_000_000)
      ensures Reports(report, SilentIn(old(mgr.View()), now, PEER_TIMEOUT))
      ensures ScanReplies(batches, mgr.View(), report) && out == Flat(batches)
    {
      var results := mgr.ScanTimeout(now, PEER_TIMEOUT);
      report := Pairs(results);
      out, batches := NotifyScan(results, mgr.View());
    }

    method NotifyScan(results: seq<TimeoutResult>, ghost rooms: Rooms)
        returns (out: seq<Datagram>, ghost batches: seq<seq<Datagram>>)
      requires mgr.Valid() && rooms == mgr.View()
      ensures mgr.View() == rooms
      ensures ScanReplies(batches, rooms, Pairs(results)) && out == Flat(batches)
    {
      out, batches := [], [];
      for i := 0 to |results|
        invariant mgr.View() == rooms
        invariant |batches| == i && out == Flat(batches)
        invariant forall j :: 0 <= j < i ==> ScanReply(batches[j], rooms, results[j].roomId, results[j].peer.id)
      {
        var batch := NotifyRoom(results[i], rooms);
        out, batches := out + batch, batches + [batch];
      }
      PairsAt(results);
    }

    method NotifyRoom(result: TimeoutResult, ghost rooms: Rooms) returns (out: seq<Datagram>)
      requires mgr.Valid() && rooms == mgr.View()
      ensures mgr.View() == rooms
      ensures ScanReply(out, rooms, result.roomId, result.peer.id)
    {
      var r := mgr.Get(result.roomId);
      if r == null {
        return [];
      }
      out := Farewell(r, result.peer.id, Public(rooms[result.roomId]));
    }

    /** The join's lookup, then a whole leave by the room's last member. */
    method LeaveAfterLookup(roomId: RoomId, leaver: PeerId) returns (r: Room)
      requires mgr.Valid() && roomId in mgr.rooms && mgr.rooms[roomId].peers.Keys == {leaver}
      modifies mgr, mgr.rooms[roomId]
      ensures roomId !in mgr.rooms && mgr.peerSet == old(mgr.peerSet)
      ensures r == old(mgr.rooms)[roomId] && r.Valid() && r.id == roomId && r.peers == map[] && r.peerSet <= mgr.peerSet
    {
      r := mgr.GetOrCreate(roomId);
      ghost var before := r.View();
      var _ := mgr.LeaveIn(roomId, leaver);
      assert r.peers.Keys == before.Keys - {leaver};
      assert |r.peers| == |r.peers.Keys|;
      if r.IsEmpty() {
        mgr.Remove(roomId);
      }
    }

    /** Why handlers are taken one at a time here: between finding the room and joining it, a leave
        may empty and drop that room, and the newcomer is left in a room nobody can find. */
    method JoinLosesRace(roomId: RoomId, leaver: PeerId, p: Peer, now: int) returns (r: Room)
      requires mgr.Valid() && roomId in mgr.rooms && mgr.rooms[roomId].peers.Keys == {leaver}
      requires p !in mgr.peerSet && p.home == roomId
      modifies mgr, mgr.rooms[roomId], p
      ensures roomId !in mgr.rooms && p.id in r.peers && r.peers[p.id] == p
    {
      r := LeaveAfterLookup(roomId, leaver);
      var _ := r.Join(p, now);
    }
  }
}
