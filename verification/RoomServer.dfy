/** The server's peers, rooms and room manager (server/internal/peer/peer.go,
    server/internal/room/room.go, server/internal/room/manager.go), as objects updated in place
    and proved against the tables of module Vip. Clocks are parameters. */
module RoomServer {
  import opened Vip

  type RoomId = Name
  type Rooms = map<RoomId, Members>

  class Peer {
    const id: PeerId
    const nickName: Name
    var addr: Endpoint
    var virtualIP: nat
    var voiceOn: bool
    var micOn: bool
    var lastSeen: int
    // The room the join request named; a peer object is never shared between rooms.
    ghost const home: RoomId

    constructor (id: PeerId, nickName: Name, addr: Endpoint, now: int, ghost home: RoomId)
      ensures this.id == id && this.nickName == nickName && this.addr == addr && this.home == home
      ensures virtualIP == 0 && !voiceOn && !micOn && lastSeen == now
    {
      this.id, this.nickName, this.addr, this.home := id, nickName, addr, home;
      virtualIP, voiceOn, micOn, lastSeen := 0, false, false, now;
    }

    method Touch(now: int)
      modifies this`lastSeen
      ensures lastSeen == now
    {
      lastSeen := now;
    }

    method SetVirtualIP(vip: nat)
      modifies this`virtualIP
      ensures virtualIP == vip
    {
      virtualIP := vip;
    }

    predicate IsTimeout(now: int, timeout: int)
      reads this`lastSeen
    {
      now - lastSeen > timeout
    }

    ghost function View(): Member
      reads this
    {
      Member(virtualIP, addr, lastSeen)
    }
  }

  class Room {
    const id: RoomId
    var peers: map<PeerId, Peer>
    // Frame: every peer the room holds or has held.
    ghost var peerSet: set<Peer>

    ghost predicate Valid()
      reads this
    {
      && (forall k :: k in peers ==> peers[k].id == k && peers[k] in peerSet)
      && (forall p :: p in peerSet ==> p.home == id)
    }

    ghost function View(): (v: Members)
      requires Valid()
      reads this, peerSet
      ensures v.Keys == peers.Keys
    {
      map k | k in peers :: peers[k].View()
    }

    ghost function Silent(now: int, timeout: int): set<PeerId>
      requires Valid()
      reads this, peerSet
    {
      set k | k in peers && peers[k].IsTimeout(now, timeout)
    }

    constructor (id: RoomId)
      ensures Valid() && this.id == id && peers == map[] && peerSet == {} && View() == map[]
    {
      this.id := id;
      peers, peerSet := map[], {};
    }

    /** The scan behind allocVIPLocked: collect the numbers in use, then count up from 2. */
    method AllocVip() returns (vip: nat)
      requires Valid()
      ensures vip == Alloc(View())
    {
      var used: set<nat> := {};
      var rest := peers.Keys;
      while rest != {}
        invariant rest <= peers.Keys
        invariant used == set k | k in peers.Keys - rest :: peers[k].virtualIP
        decreases rest
      {
        var k :| k in rest;
        used := used + {peers[k].virtualIP};
        rest := rest - {k};
      }
      assert used == Used(View()) by {
        forall k | k in peers ensures View()[k].vip == peers[k].virtualIP { }
      }
      vip := VIP_START;
      while vip < VIP_LIMIT
        invariant VIP_START <= vip <= VIP_LIMIT
        invariant forall w :: VIP_START <= w < vip ==> w in used
      {
        if vip !in used {
          assert IsLeastFree(used, vip);
          return;
        }
        vip := vip + 1;
      }
      return VIP_START;
    }

    /** A known ID keeps its number and gets the new endpoint; a new one gets a number. */
    method Join(p: Peer, now: int) returns (vip: nat)
      requires Valid() && p !in peerSet && p.home == id
      modifies this, p, if p.id in peers then {peers[p.id]} else {}
      ensures Valid() && peerSet == old(peerSet) + {p}
      ensures p.id in peers && vip == peers[p.id].virtualIP
      ensures p.id in old(peers) ==> peers == old(peers)
      ensures p.id !in old(peers) ==> peers == old(peers)[p.id := p]
      ensures View() == JoinStep(old(View()), p.id, old(p.addr),
                                 if p.id in old(peers) then now else old(p.lastSeen))
      ensures p.id in old(peers) ==> unchanged(p)
      ensures peers[p.id].voiceOn == old(if p.id in peers then peers[p.id].voiceOn else p.voiceOn)
      ensures peers[p.id].micOn == old(if p.id in peers then peers[p.id].micOn else p.micOn)
    {
      if p.id in peers {
        var existing := peers[p.id];
        existing.addr := p.addr;
        existing.Touch(now);
        peerSet := peerSet + {p};
        return existing.virtualIP;
      }
      vip := AllocVip();
      p.SetVirtualIP(vip);
      peers, peerSet := peers[p.id := p], peerSet + {p};
    }

    method Leave(peerId: PeerId) returns (removed: Peer?)
      requires Valid()
      modifies this`peers
      ensures Valid() && peers == old(peers) - {peerId}
      ensures View() == old(View()) - {peerId}
      ensures removed == if peerId in old(peers) then old(peers)[peerId] else null
    {
      removed := null;
      if peerId in peers {
        removed := peers[peerId];
        peers := peers - {peerId};
      } else {
        assert peers - {peerId} == peers;
      }
    }

    method GetPeerByVip(vip: nat) returns (found: Peer?)
      requires Valid()
      ensures found != null ==> found.id in peers && peers[found.id] == found && LookupAnswer(View(), vip, found.id)
      ensures found == null ==> vip !in Used(View())
    {
      var rest := peers.Keys;
      while rest != {}
        invariant rest <= peers.Keys
        invariant forall k :: k in peers && k !in rest ==> peers[k].virtualIP != vip
        decreases rest
      {
        var k :| k in rest;
        if peers[k].virtualIP == vip {
          return peers[k];
        }
        rest := rest - {k};
      }
      return null;
    }

    method HasAddr(addr: Endpoint) returns (r: bool)
      requires Valid()
      ensures r <==> AddrIn(View(), addr)
    {
      var rest := peers.Keys;
      while rest != {}
        invariant rest <= peers.Keys
        invariant forall k :: k in peers && k !in rest ==> peers[k].addr != addr
        decreases rest
      {
        var k :| k in rest;
        if peers[k].addr == addr {
          assert View()[k].addr == addr;
          return true;
        }
        rest := rest - {k};
      }
      return false;
    }

    lemma ViewIs(m: Members)
      requires Valid() && peers.Keys == m.Keys
      requires forall k :: k in peers ==> peers[k].View() == m[k]
      ensures View() == m
    {
    }

    /** A snapshot of the members, each once, in some order. */
    method PeerList() returns (list: seq<Peer>)
      requires Valid()
      ensures Enumerates(Ids(list), peers.Keys)
      ensures forall i :: 0 <= i < |list| ==> list[i].id in peers && peers[list[i].id] == list[i]
    {
      list := [];
      var rest := peers.Keys;
      while rest != {}
        invariant rest <= peers.Keys
        invariant Enumerates(Ids(list), peers.Keys - rest)
        invariant forall i :: 0 <= i < |list| ==> list[i].id in peers && peers[list[i].id] == list[i]
        decreases rest
      {
        var k :| k in rest;
        EnumeratesMore(Ids(list), peers.Keys - rest, k);
        IdsMore(list, peers[k]);
        list := list + [peers[k]];
        assert peers.Keys - (rest - {k}) == peers.Keys - rest + {k};
        rest := rest - {k};
      }
    }

    predicate IsEmpty()
      reads this
    {
      |peers| == 0
    }

    /** Removes exactly the members silent for longer than the timeout, and returns each once. */
    method ScanTimeout(now: int, timeout: int) returns (timedOut: seq<Peer>, ghost gone: set<PeerId>)
      requires Valid()
      modifies this`peers
      ensures gone == old(Silent(now, timeout))
      ensures Valid() && peers == old(peers) - gone
      ensures Enumerates(Ids(timedOut), gone)
      ensures forall i :: 0 <= i < |timedOut| ==>
        timedOut[i].id in old(peers) && timedOut[i] == old(peers)[timedOut[i].id]
    {
      timedOut := [];
      ghost var start := peers;
      gone := Silent(now, timeout);
      var rest := peers.Keys;
      while rest != {}
        invariant rest <= peers.Keys <= start.Keys
        invariant forall k :: k in peers ==> peers[k] == start[k]
        invariant forall k :: k in start && k !in rest ==> (k in peers <==> !start[k].IsTimeout(now, timeout))
        invariant forall i :: 0 <= i < |timedOut| ==>
          timedOut[i].id in start && timedOut[i].id !in peers && timedOut[i] == start[timedOut[i].id]
        invariant forall i, j :: 0 <= i < j < |timedOut| ==> timedOut[i].id != timedOut[j].id
        invariant forall k :: k in start && k !in peers ==> start[k] in timedOut
        decreases rest
      {
        var k :| k in rest;
        if peers[k].IsTimeout(now, timeout) {
          timedOut := timedOut + [peers[k]];
          peers := peers - {k};
        }
        rest := rest - {k};
      }
      assert forall k :: k in start ==> (k in gone <==> start[k].IsTimeout(now, timeout));
      assert peers == start - gone;
      forall k ensures k in Ids(timedOut) <==> k in gone {
        if k in gone {
          var i :| 0 <= i < |timedOut| && timedOut[i] == start[k];
          assert Ids(timedOut)[i] == k;
        }
      }
    }
  }

  // A peer removed by a timeout scan, and the room it was in.
  datatype TimeoutResult = TimeoutResult(roomId: RoomId, peer: Peer)

  class Manager {
    var rooms: map<RoomId, Room>
    // Frame: every room and every peer the manager holds or has held.
    ghost var roomSet: set<Room>
    ghost var peerSet: set<Peer>

    ghost predicate Valid()
      reads this, roomSet
    {
      forall r :: r in rooms ==>
        rooms[r] in roomSet && rooms[r].id == r && rooms[r].Valid() && rooms[r].peerSet <= peerSet
    }

    ghost function View(): (v: Rooms)
      requires Valid()
      reads this, roomSet, peerSet
      ensures v.Keys == rooms.Keys
    {
      map r | r in rooms :: rooms[r].View()
    }

    lemma ViewIs(tables: Rooms)
      requires Valid() && rooms.Keys == tables.Keys
      requires forall r :: r in rooms ==> rooms[r].View() == tables[r]
      ensures View() == tables
    {
    }

    constructor ()
      ensures Valid() && rooms == map[]
    {
      rooms, roomSet, peerSet := map[], {}, {};
    }

    method GetOrCreate(roomId: RoomId) returns (r: Room)
      requires Valid()
      modifies this
      ensures Valid()
      ensures roomId in rooms && r == rooms[roomId]
      ensures roomId in old(rooms) ==> rooms == old(rooms)
      ensures roomId !in old(rooms) ==> rooms == old(rooms)[roomId := r] && fresh(r) && r.peers == map[]
      ensures peerSet == old(peerSet) && roomSet == old(roomSet) + {r}
      ensures View() == if roomId in old(rooms) then old(View()) else old(View())[roomId := map[]]
    {
      ghost var before := View();
      if roomId in rooms {
        r := rooms[roomId];
        roomSet := roomSet + {r};
        ViewIs(before);
        return;
      }
      r := new Room(roomId);
      rooms, roomSet := rooms[roomId := r], roomSet + {r};
      ViewIs(before[roomId := map[]]);
    }

    function Get(roomId: RoomId): (r: Room?)
      reads this
      ensures r == null <==> roomId !in rooms
      ensures r != null ==> r == rooms[roomId]
    {
      if roomId in rooms then rooms[roomId] else null
    }

    /** Rooms are different objects and share no peers. */
    lemma RoomsApart(r: RoomId, q: RoomId)
      requires Valid() && r in rooms && q in rooms && r != q
      ensures rooms[r] != rooms[q] && rooms[r].peerSet !! rooms[q].peerSet
    {
      assert rooms[r].id != rooms[q].id;
    }

    /** What a join in one room may change is no part of the others. */
    lemma OthersApart(roomId: RoomId, p: Peer)
      requires Valid() && roomId in rooms && p !in peerSet
      ensures forall q :: q in rooms && q != roomId ==>
                rooms[q] != rooms[roomId] && rooms[q].peerSet !! rooms[roomId].peerSet + {p}
    {
      forall q | q in rooms && q != roomId ensures rooms[q].peerSet !! rooms[roomId].peerSet + {p} {
        RoomsApart(roomId, q);
      }
    }

    method JoinRoom(roomId: RoomId, p: Peer, now: int) returns (vip: nat)
      requires Valid() && roomId in rooms && p !in peerSet && p.home == roomId && p.lastSeen == now
      modifies rooms[roomId], p, this`peerSet, if p.id in rooms[roomId].peers then {rooms[roomId].peers[p.id]} else {}
      ensures Valid() && rooms[roomId].View() == JoinStep(old(rooms[roomId].View()), p.id, old(p.addr), now)
      ensures p.id in rooms[roomId].peers && vip == rooms[roomId].peers[p.id].virtualIP
    {
      OthersApart(roomId, p);
      vip := rooms[roomId].Join(p, now);
      peerSet := peerSet + {p};
    }

    /** A join touches its own room only. */
    method JoinIn(roomId: RoomId, p: Peer, now: int) returns (vip: nat)
      requires Valid() && roomId in rooms && p !in peerSet && p.home == roomId && p.lastSeen == now
      modifies rooms[roomId], p, rooms[roomId].peerSet, this`peerSet
      ensures Valid() && rooms[roomId].View() == JoinStep(old(rooms[roomId].View()), p.id, old(p.addr), now)
      ensures p.id in rooms[roomId].peers && vip == rooms[roomId].peers[p.id].virtualIP
      ensures forall q :: q in rooms && q != roomId ==> rooms[q].View() == old(rooms[q].View())
    {
      OthersApart(roomId, p);
      vip := JoinRoom(roomId, p, now);
    }

    method LeaveIn(roomId: RoomId, peerId: PeerId) returns (removed: Peer?)
      requires Valid() && roomId in rooms
      modifies rooms[roomId]
      ensures Valid() && rooms[roomId].View() == old(rooms[roomId].View()) - {peerId}
      ensures forall q :: q in rooms && q != roomId ==> rooms[q].View() == old(rooms[q].View())
      ensures removed == if peerId in old(rooms[roomId].peers) then old(rooms[roomId].peers)[peerId] else null
    {
      removed := rooms[roomId].Leave(peerId);
      forall q | q in rooms && q != roomId ensures rooms[q].View() == old(rooms[q].View()) {
        assert rooms[q].id != rooms[roomId].id;
      }
    }

    method TouchIn(roomId: RoomId, peerId: PeerId, now: int)
      requires Valid() && roomId in rooms && peerId in rooms[roomId].peers
      modifies rooms[roomId].peers[peerId]
      ensures Valid() && rooms[roomId].View() == TouchStep(old(rooms[roomId].View()), peerId, now)
      ensures forall q :: q in rooms && q != roomId ==> rooms[q].View() == old(rooms[q].View())
    {
      rooms[roomId].peers[peerId].Touch(now);
      forall q | q in rooms && q != roomId ensures rooms[q].View() == old(rooms[q].View()) {
        assert rooms[q].id != rooms[roomId].id;
      }
    }

    method Remove(roomId: RoomId)
      requires Valid()
      modifies this`rooms
      ensures Valid() && rooms == old(rooms) - {roomId}
      ensures View() == old(View()) - {roomId}
    {
      ghost var before := View();
      rooms := rooms - {roomId};
      ViewIs(before - {roomId});
    }

    /** Some room that holds the endpoint, in whatever order the rooms are visited. */
    method LookupByAddr(addr: Endpoint) returns (found: Room?)
      requires Valid()
      ensures found != null ==> found.id in rooms && rooms[found.id] == found && AddrIn(View()[found.id], addr)
      ensures found == null ==> forall r :: r in View() ==> !AddrIn(View()[r], addr)
    {
      var rest := rooms.Keys;
      while rest != {}
        invariant rest <= rooms.Keys
        invariant forall r :: r in rooms && r !in rest ==> !AddrIn(rooms[r].View(), addr)
        decreases rest
      {
        var r :| r in rest;
        var here := rooms[r].HasAddr(addr);
        if here {
          return rooms[r];
        }
        rest := rest - {r};
      }
      return null;
    }

    method DropRooms(empty: set<RoomId>)
      requires Valid()
      modifies this`rooms
      ensures Valid() && rooms == old(rooms) - empty
      ensures View() == old(View()) - empty
    {
      var rest := empty;
      while rest != {}
        invariant rest <= empty
        invariant rooms == old(rooms) - (empty - rest)
        decreases rest
      {
        var r :| r in rest;
        rooms := rooms - {r};
        rest := rest - {r};
      }
    }

    /** The scan has not reached the room yet: gone are its silent peers, left the others. */
    ghost predicate Unscanned(r: RoomId, gone: set<PeerId>, left: map<PeerId, Peer>, now: int, timeout: int)
      requires r in rooms
      reads this, rooms[r], rooms[r].peerSet
    {
      var room := rooms[r];
      room.Valid() && gone == room.Silent(now, timeout) && left == room.peers - gone
    }

    /** Halfway through a scan: rest is unscanned, the other rooms have lost their silent peers. */
    ghost predicate Scanning(rest: set<RoomId>, gone: map<RoomId, set<PeerId>>,
                             left: map<RoomId, map<PeerId, Peer>>, now: int, timeout: int)
      reads this, roomSet, peerSet
    {
      && rest <= rooms.Keys == gone.Keys == left.Keys
      && (forall r :: r in rooms ==> rooms[r].id == r && rooms[r] in roomSet && rooms[r].peerSet <= peerSet)
      && (forall r :: r in rest ==> Unscanned(r, gone[r], left[r], now, timeout))
      && (forall r :: r in rooms && r !in rest ==> rooms[r].Valid() && rooms[r].peers == left[r])
    }

    method ScanOne(r: RoomId, now: int, timeout: int, ghost rest: set<RoomId>,
                   ghost gone: map<RoomId, set<PeerId>>, ghost left: map<RoomId, map<PeerId, Peer>>)
        returns (timedOut: seq<Peer>)
      requires Scanning(rest, gone, left, now, timeout) && r in rest
      modifies rooms[r]
      ensures Scanning(rest - {r}, gone, left, now, timeout)
      ensures Enumerates(Ids(timedOut), gone[r])
    {
      ghost var silent;
      timedOut, silent := rooms[r].ScanTimeout(now, timeout);
    }

    /** One room's share of the scan: its timed-out peers join the results. */
    method ScanRoom(r: RoomId, now: int, timeout: int, results: seq<TimeoutResult>, ghost rest: set<RoomId>,
                    ghost gone: map<RoomId, set<PeerId>>, ghost left: map<RoomId, map<PeerId, Peer>>)
        returns (longer: seq<TimeoutResult>, isEmpty: bool)
      requires Scanning(rest, gone, left, now, timeout) && r in rest
      requires Enumerates(Pairs(results), PairsIn(gone, rooms.Keys - rest))
      modifies rooms[r]
      ensures Scanning(rest - {r}, gone, left, now, timeout)
      ensures Enumerates(Pairs(longer), PairsIn(gone, rooms.Keys - (rest - {r})))
      ensures isEmpty <==> left[r].Keys == {}
    {
      var timedOut := ScanOne(r, now, timeout, rest, gone, left);
      longer := AppendTagged(results, r, timedOut);
      OneRoomLess(Pairs(results), Ids(timedOut), r, gone, rooms.Keys, rest);
      isEmpty := rooms[r].IsEmpty();
      assert |left[r]| == |left[r].Keys|;
    }

    method ScanAllRooms(now: int, timeout: int, ghost gone: map<RoomId, set<PeerId>>,
                        ghost left: map<RoomId, map<PeerId, Peer>>)
        returns (results: seq<TimeoutResult>, empty: set<RoomId>)
      requires Scanning(rooms.Keys, gone, left, now, timeout)
      modifies roomSet
      ensures Scanning({}, gone, left, now, timeout)
      ensures forall r :: r in empty <==> r in left && left[r].Keys == {}
      ensures Reports(Pairs(results), gone)
    {
      results, empty := [], {};
      var rest := rooms.Keys;
      while rest != {}
        invariant rest <= rooms.Keys && Scanning(rest, gone, left, now, timeout)
        invariant forall r :: r in empty <==> r in left && r !in rest && left[r].Keys == {}
        invariant Enumerates(Pairs(results), PairsIn(gone, rooms.Keys - rest))
        decreases rest
      {
        var r :| r in rest;
        var isEmpty;
        results, isEmpty := ScanRoom(r, now, timeout, results, rest, gone, left);
        if isEmpty {
          empty := empty + {r};
        }
        rest := rest - {r};
      }
      assert rooms.Keys - rest == gone.Keys;
    }

    /** The peers left[r] are what a scan of room r's table before leaves. */
    ghost predicate Survivors(before: Rooms, left: map<RoomId, map<PeerId, Peer>>, now: int, timeout: int)
      reads peerSet, this
    {
      && left.Keys == before.Keys
      && (forall r :: r in left ==> left[r].Keys == ScanStep(before[r], now, timeout).Keys)
      && (forall r, k :: r in left && k in left[r] ==> left[r][k] in peerSet && left[r][k].View() == before[r][k])
    }

    lemma ViewAfterScan(before: Rooms, gone: map<RoomId, set<PeerId>>, left: map<RoomId, map<PeerId, Peer>>,
                        now: int, timeout: int)
      requires Scanning({}, gone, left, now, timeout) && Survivors(before, left, now, timeout)
      ensures Valid() && View() == EachScanned(before, now, timeout)
    {
      assert rooms.Keys == before.Keys;
      forall r | r in rooms ensures rooms[r].View() == ScanStep(before[r], now, timeout) {
        rooms[r].ViewIs(ScanStep(before[r], now, timeout));
      }
    }

    lemma PlanScan(now: int, timeout: int)
        returns (gone: map<RoomId, set<PeerId>>, left: map<RoomId, map<PeerId, Peer>>)
      requires Valid()
      ensures Scanning(rooms.Keys, gone, left, now, timeout)
      ensures Survivors(View(), left, now, timeout)
      ensures gone == SilentIn(View(), now, timeout)
    {
      gone := map r | r in rooms :: rooms[r].Silent(now, timeout);
      left := map r | r in rooms :: rooms[r].peers - gone[r];
      forall r | r in rooms ensures gone[r] == Expired(View()[r], now, timeout) { }
    }

    method ScanMembers(now: int, timeout: int) returns (results: seq<TimeoutResult>, empty: set<RoomId>)
      requires Valid()
      modifies roomSet
      ensures Valid() && View() == EachScanned(old(View()), now, timeout)
      ensures empty == EmptyRooms(View())
      ensures Reports(Pairs(results), SilentIn(old(View()), now, timeout))
    {
      ghost var before := View();
      ghost var gone, left := PlanScan(now, timeout);
      results, empty := ScanAllRooms(now, timeout, gone, left);
      ViewAfterScan(before, gone, left, now, timeout);
      forall r | r in rooms ensures View()[r].Keys == left[r].Keys { }
    }

    /** One scan of every room: exactly the silent peers are removed, each is reported once with
        its room, and rooms left empty are dropped. */
    method ScanTimeout(now: int, timeout: int) returns (results: seq<TimeoutResult>)
      requires Valid()
      modifies this`rooms, roomSet
      ensures Valid() && View() == ScanRooms(old(View()), now, timeout)
      ensures Survive(old(View()), View(), now, timeout)
      ensures forall r :: r in rooms ==> r in old(rooms) && rooms[r] == old(rooms[r])
      ensures Reports(Pairs(results), SilentIn(old(View()), now, timeout))
    {
      ghost var before := View();
      var empty;
      results, empty := ScanMembers(now, timeout);
      DropRooms(empty);
      ScanSurvivors(before, now, timeout);
    }
  }

  function Ids(list: seq<Peer>): (s: seq<PeerId>)
    ensures |s| == |list| && forall i :: 0 <= i < |s| ==> s[i] == list[i].id
  {
    if |list| == 0 then [] else Ids(list[..|list| - 1]) + [list[|list| - 1].id]
  }

  lemma IdsMore(list: seq<Peer>, p: Peer)
    ensures Ids(list + [p]) == Ids(list) + [p.id]
  {
    assert (list + [p])[..|list|] == list;
  }

  lemma IdsStep(list: seq<Peer>, i: nat)
    requires i < |list|
    ensures Ids(list[..i + 1]) == Ids(list[..i]) + [list[i].id]
  {
  }

  function Tag(r: RoomId, ids: seq<PeerId>): (s: seq<(RoomId, PeerId)>)
    ensures |s| == |ids| && forall i :: 0 <= i < |s| ==> s[i] == (r, ids[i])
  {
    if |ids| == 0 then [] else Tag(r, ids[..|ids| - 1]) + [(r, ids[|ids| - 1])]
  }

  method AppendTagged(results: seq<TimeoutResult>, r: RoomId, timedOut: seq<Peer>) returns (longer: seq<TimeoutResult>)
    ensures Pairs(longer) == Pairs(results) + Tag(r, Ids(timedOut))
  {
    longer := results;
    for i := 0 to |timedOut|
      invariant Pairs(longer) == Pairs(results) + Tag(r, Ids(timedOut[..i]))
    {
      longer := longer + [TimeoutResult(r, timedOut[i])];
      IdsStep(timedOut, i);
    }
    assert timedOut[..|timedOut|] == timedOut;
  }

  function Pairs(results: seq<TimeoutResult>): (s: seq<(RoomId, PeerId)>)
    ensures |s| == |results|
  {
    if |results| == 0 then []
    else Pairs(results[..|results| - 1]) + [(results[|results| - 1].roomId, results[|results| - 1].peer.id)]
  }

  lemma {:induction false} PairsAt(results: seq<TimeoutResult>)
    ensures forall i :: 0 <= i < |results| ==> Pairs(results)[i] == (results[i].roomId, results[i].peer.id)
    decreases |results|
  {
    if |results| > 0 {
      PairsAt(results[..|results| - 1]);
    }
  }

  /** list holds every element of s, each once, and nothing else. */
  ghost predicate Enumerates<T(!new)>(list: seq<T>, s: set<T>) {
    && (forall x :: x in list <==> x in s)
    && (forall i, j :: 0 <= i < j < |list| ==> list[i] != list[j])
  }

  ghost function EachScanned(rooms: Rooms, now: int, timeout: int): Rooms {
    map r | r in rooms :: ScanStep(rooms[r], now, timeout)
  }

  ghost function EmptyRooms(rooms: Rooms): set<RoomId> {
    set r | r in rooms && rooms[r].Keys == {}
  }

  lemma EnumeratesMore<T(!new)>(list: seq<T>, s: set<T>, x: T)
    requires Enumerates(list, s) && x !in s
    ensures Enumerates(list + [x], s + {x})
  {
    var longer := list + [x];
    forall i, j | 0 <= i < j < |longer| ensures longer[i] != longer[j] {
      if j == |list| { assert list[i] in list; }
    }
    forall y ensures y in longer <==> y in s + {x} {
      assert y in longer <==> y in list || y == x;
    }
  }

  /** All rooms after a scan: the silent members gone, and with them the empty rooms. */
  ghost function ScanRooms(rooms: Rooms, now: int, timeout: int): Rooms {
    var scanned := EachScanned(rooms, now, timeout);
    scanned - EmptyRooms(scanned)
  }

  /** What is left of the rooms: exactly the members heard of within the timeout, each as it was, and
      exactly the rooms that have one. */
  ghost predicate Survive(before: Rooms, after: Rooms, now: int, timeout: int) {
    && (forall r :: r in after <==>
          r in before && exists id :: id in before[r] && now - before[r][id].lastSeen <= timeout)
    && (forall r, id :: r in after ==>
          (id in after[r] <==> id in before[r] && now - before[r][id].lastSeen <= timeout))
    && (forall r, id :: r in after && id in after[r] ==> after[r][id] == before[r][id])
  }

  lemma ScanSurvivors(rooms: Rooms, now: int, timeout: int)
    ensures Survive(rooms, ScanRooms(rooms, now, timeout), now, timeout)
  {
    var after := ScanRooms(rooms, now, timeout);
    forall r ensures r in after <==>
      r in rooms && exists id :: id in rooms[r] && now - rooms[r][id].lastSeen <= timeout
    {
      if r in rooms {
        var kept := ScanStep(rooms[r], now, timeout);
        assert EachScanned(rooms, now, timeout)[r] == kept;
        if id :| id in kept { assert kept.Keys != {}; }
        if id :| id in rooms[r] && now - rooms[r][id].lastSeen <= timeout { assert id in kept; }
      }
    }
  }

  ghost function SilentIn(rooms: Rooms, now: int, timeout: int): map<RoomId, set<PeerId>> {
    map r | r in rooms :: Expired(rooms[r], now, timeout)
  }

  /** The (room, member) pairs of the given rooms that are in gone. */
  ghost function PairsIn(gone: map<RoomId, set<PeerId>>, scope: set<RoomId>): set<(RoomId, PeerId)> {
    set r, k | r in scope && r in gone && k in gone[r] :: (r, k)
  }

  /** pairs reports every removed member with its room, each once, and nobody else. */
  ghost predicate Reports(pairs: seq<(RoomId, PeerId)>, gone: map<RoomId, set<PeerId>>) {
    Enumerates(pairs, PairsIn(gone, gone.Keys))
  }

  lemma ExtendReports(pairs: seq<(RoomId, PeerId)>, ids: seq<PeerId>, r: RoomId,
                      gone: map<RoomId, set<PeerId>>, scope: set<RoomId>)
    requires r in gone && r !in scope
    requires Enumerates(pairs, PairsIn(gone, scope)) && Enumerates(ids, gone[r])
    ensures Enumerates(pairs + Tag(r, ids), PairsIn(gone, scope + {r}))
  {
    var tagged := Tag(r, ids);
    forall p ensures p in tagged <==> p.0 == r && p.1 in gone[r] {
      if p.0 == r && p.1 in gone[r] {
        var i :| 0 <= i < |ids| && ids[i] == p.1;
        assert tagged[i] == p;
      }
    }
    forall p ensures p in pairs + tagged <==> p in PairsIn(gone, scope + {r}) {
      assert p in pairs + tagged <==> p in pairs || p in tagged;
    }
    forall i, j | 0 <= i < j < |pairs + tagged| ensures (pairs + tagged)[i] != (pairs + tagged)[j] {
      if i < |pairs| <= j {
        assert pairs[i] in pairs;
        assert tagged[j - |pairs|] in tagged;
      }
    }
  }

  /** The same, told by the rooms still to scan. */
  lemma OneRoomLess(pairs: seq<(RoomId, PeerId)>, ids: seq<PeerId>, r: RoomId,
                    gone: map<RoomId, set<PeerId>>, all: set<RoomId>, rest: set<RoomId>)
    requires r in gone && r in rest && rest <= all
    requires Enumerates(pairs, PairsIn(gone, all - rest)) && Enumerates(ids, gone[r])
    ensures Enumerates(pairs + Tag(r, ids), PairsIn(gone, all - (rest - {r})))
  {
    ExtendReports(pairs, ids, r, gone, all - rest);
    assert all - (rest - {r}) == all - rest + {r};
  }

  ghost predicate AddrIn(m: Members, addr: Endpoint) {
    exists k :: k in m && m[k].addr == addr
  }
}
