/** The client's record of its room (client/peer/manager.go) and the message handlers that keep it
    (client/core/client.go), proved against the view functions of module Membership. */
module PeerView {
  import opened Vip
  import opened RoomServer
  import opened Membership
  import opened Options

  lemma ListMore(list: seq<PeerInfo>, t: Table, id: PeerId, info: Info)
    requires IsListing(list, t) && id !in t
    ensures IsListing(list + [PeerInfo(id, info)], t[id := info])
  {
    var longer := list + [PeerInfo(id, info)];
    forall p ensures p in longer <==> p.id in t[id := info] && t[id := info][p.id] == p.info {
      assert p in longer <==> p in list || p == PeerInfo(id, info);
    }
    forall i, j | 0 <= i < j < |longer| ensures longer[i].id != longer[j].id {
      if j == |list| { assert list[i] in list; }
    }
  }

  class PeerManager {
    var peers: Table
    // None until the server's listing has named us; its host number then reads as 0.
    var self: Option<Info>
    // Round-trip times: measured directly, and reported by the peer.
    var p2pRTT: map<PeerId, int>
    var peerSRTT: map<PeerId, int>

    /** Times are kept of known peers only. */
    predicate Valid()
      reads this
    {
      p2pRTT.Keys <= peers.Keys && peerSRTT.Keys <= peers.Keys
    }

    ghost function Seen(): View
      reads this
    {
      View(self, peers)
    }

    constructor ()
      ensures Valid() && Seen() == EMPTY_VIEW
    {
      peers, self, p2pRTT, peerSRTT := map[], None, map[], map[];
    }

    function SelfVIP(): nat
      reads this`self
    {
      if self.Some? then self.value.vip else 0
    }

    method SetSelf(info: Info)
      requires Valid()
      modifies this`self
      ensures Valid() && self == Some(info)
    {
      self := Some(info);
    }

    method Upsert(p: PeerInfo)
      requires Valid()
      modifies this`peers
      ensures Valid() && peers == old(peers)[p.id := p.info]
    {
      peers := peers[p.id := p.info];
    }

    method Remove(id: PeerId)
      requires Valid()
      modifies this`peers, this`p2pRTT, this`peerSRTT
      ensures Valid() && peers == old(peers) - {id}
      ensures p2pRTT == old(p2pRTT) - {id} && peerSRTT == old(peerSRTT) - {id}
    {
      peers, p2pRTT, peerSRTT := peers - {id}, p2pRTT - {id}, peerSRTT - {id};
    }

    method Reset()
      modifies this
      ensures Valid() && Seen() == EMPTY_VIEW && p2pRTT == map[] && peerSRTT == map[]
    {
      peers, self, p2pRTT, peerSRTT := map[], None, map[], map[];
    }

    method SetPeerP2PRTT(id: PeerId, ms: int)
      requires Valid()
      modifies this`p2pRTT
      ensures Valid() && p2pRTT == if id in peers then old(p2pRTT)[id := ms] else old(p2pRTT)
    {
      if id in peers {
        p2pRTT := p2pRTT[id := ms];
      }
    }

    method SetPeerServerRTT(id: PeerId, ms: int) returns (known: bool)
      requires Valid()
      modifies this`peerSRTT
      ensures Valid() && (known <==> id in peers)
      ensures peerSRTT == if known then old(peerSRTT)[id := ms] else old(peerSRTT)
    {
      known := id in peers;
      if known {
        peerSRTT := peerSRTT[id := ms];
      }
    }

    /** Some peer with the number, in whatever order the peers are visited; None only if there is none. */
    method GetByVIP(vip: nat) returns (found: Option<PeerInfo>)
      ensures found.Some? ==> found.value.id in peers && peers[found.value.id] == found.value.info
                              && found.value.info.vip == vip
      ensures found == None ==> forall id :: id in peers ==> peers[id].vip != vip
    {
      var rest := peers.Keys;
      while rest != {}
        invariant rest <= peers.Keys
        invariant forall id :: id in peers && id !in rest ==> peers[id].vip != vip
        decreases rest
      {
        var id :| id in rest;
        if peers[id].vip == vip {
          return Some(PeerInfo(id, peers[id]));
        }
        rest := rest - {id};
      }
      return None;
    }

    method List() returns (list: seq<PeerInfo>)
      ensures IsListing(list, peers)
    {
      list := [];
      var rest := peers.Keys;
      ghost var done: Table := map[];
      while rest != {}
        invariant rest <= peers.Keys && done == peers - rest
        invariant IsListing(list, done)
        decreases rest
      {
        var id :| id in rest;
        ListMore(list, done, id, peers[id]);
        list := list + [PeerInfo(id, peers[id])];
        done := done[id := peers[id]];
        rest := rest - {id};
      }
      assert done == peers;
    }

    /** A snapshot: forget everything, then record self and the others. */
    method HandleRoomStatus(me: PeerId, infos: seq<PeerInfo>)
      requires Valid()
      modifies this
      ensures Valid() && Seen() == ApplyStatus(me, infos)
    {
      Reset();
      for i := 0 to |infos|
        invariant Valid() && Seen() == ApplyStatus(me, infos[..i])
      {
        var info := infos[i];
        assert infos[..i + 1][..i] == infos[..i];
        if info.id == me {
          SetSelf(info.info);
        } else {
          Upsert(info);
        }
      }
      assert infos[..|infos|] == infos;
    }

    /** Whatever the message, the record follows the view function. */
    method Handle(me: PeerId, msg: Msg)
      requires Valid()
      modifies this
      ensures Valid() && Seen() == Apply(me, old(Seen()), msg)
    {
      match msg
      case RoomStatus(infos, _, _) => HandleRoomStatus(me, infos);
      case PeerAddress(p) => Upsert(p);
      case PeerLeave(id) => Remove(id);
    }
  }

  /** A client that handled everything sent to it, and has no leave under way, finds a peer by its
      number exactly when the server's room has such a member: the two lookups answer alike. */
  lemma LookupsAgree(net: Network, s: State, r: RoomId, me: PeerId, vip: nat, id: PeerId)
    requires Inv(net, s) && r in s.rooms && me in s.rooms[r] && me in s.clients
    requires NoLeave(s.clients[me].up) && s.clients[me].down == [] && id != me
    ensures var t := s.clients[me].view.peers;
            id in t && t[id].vip == vip <==> LookupAnswer(s.rooms[r], vip, id)
  {
    assert Eventual(s, me) == s.clients[me].view;
  }
}
