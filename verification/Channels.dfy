/** The client's per-peer channels (client/core/client.go, client/netconn/channel.go): several
    goroutines race to install, upgrade, replace and close them, each under the channel lock. One
    locked section is one step; the steps interleave in any order. T identifies a P2P channel. */
module Channels {
  import opened Vip
  import opened Membership
  import opened Options
  import opened PeerView

  datatype Channel<T> = Relay(srcVIP: nat, dstVIP: nat) | P2P(chan: T)

  /** slots is the channel map; created are all P2P channels so far, open those whose ping loop
      runs; launched maps a channel that punchPeer has created but not yet installed to its peer. */
  datatype ChannelState<T> = ChannelState(slots: map<PeerId, Channel<T>>, created: set<T>, open: set<T>,
                                          launched: map<T, PeerId>)

  datatype Step<T> =
    | OnDemandRelay(id: PeerId, src: nat, dst: nat) // channelForVIP
    | PassivePunch(id: PeerId, chan: T)             // createPassiveP2P
    | Launch(id: PeerId, chan: T)                   // punchPeer: the new channel, before the lock
    | Install(chan: T)                              // punchPeer: the locked section of the winner
    | GiveUp(id: PeerId, src: nat, dst: nat)        // punchPeer: all attempts failed
    | PeerGone(id: PeerId)                          // handlePeerLeave
    | LeaveRoom

  ghost predicate HasP2P<T>(s: ChannelState<T>, id: PeerId) {
    id in s.slots && s.slots[id].P2P?
  }

  ghost function ChanAt<T>(s: ChannelState<T>, id: PeerId): set<T> {
    if HasP2P(s, id) then {s.slots[id].chan} else {}
  }

  ghost function Installed<T>(s: ChannelState<T>): set<T> {
    set id | id in s.slots && s.slots[id].P2P? :: s.slots[id].chan
  }

  ghost function After<T>(s: ChannelState<T>, step: Step<T>): ChannelState<T>
    requires Enabled(s, step)
  {
    match step
    case OnDemandRelay(id, src, dst) => if id in s.slots then s else s.(slots := s.slots[id := Relay(src, dst)])
    case PassivePunch(id, t) =>
      if HasP2P(s, id) then s
      else s.(slots := s.slots[id := P2P(t)], created := s.created + {t}, open := s.open + {t})
    case Launch(id, t) =>
      s.(created := s.created + {t}, open := s.open + {t}, launched := s.launched[t := id])
    case Install(t) =>
      var id := s.launched[t];
      s.(slots := s.slots[id := P2P(t)], open := s.open - ChanAt(s, id), launched := s.launched - {t})
    case GiveUp(id, src, dst) => if HasP2P(s, id) then s else s.(slots := s.slots[id := Relay(src, dst)])
    case PeerGone(id) => s.(slots := s.slots - {id}, open := s.open - ChanAt(s, id))
    case LeaveRoom => s.(slots := map[], open := s.open - Installed(s))
  }

  /** New channels are new objects, and only a launched channel is installed. */
  ghost predicate Enabled<T>(s: ChannelState<T>, step: Step<T>) {
    match step
    case PassivePunch(_, t) => t !in s.created
    case Launch(_, t) => t !in s.created
    case Install(t) => t in s.launched
    case _ => true
  }

  ghost predicate Start<T>(s: ChannelState<T>) {
    s == ChannelState(map[], {}, {}, map[])
  }

  /** Every open channel has exactly one holder, a slot of the map or a punchPeer about to install
      it; and nothing closed is in the map. */
  ghost predicate Ownership<T>(s: ChannelState<T>) {
    && s.open == Installed(s) + s.launched.Keys
    && Installed(s) !! s.launched.Keys
    && s.open <= s.created
    && (forall a, b :: a != b && HasP2P(s, a) && HasP2P(s, b) ==> s.slots[a].chan != s.slots[b].chan)
  }

  /** The channels on which a step calls Close. */
  ghost function Closes<T>(s: ChannelState<T>, step: Step<T>): set<T>
    requires Enabled(s, step)
  {
    match step
    case Install(t) => ChanAt(s, s.launched[t])
    case PeerGone(id) => ChanAt(s, id)
    case LeaveRoom => Installed(s)
    case _ => {}
  }

  lemma InstalledAfterPut<T>(s: ChannelState<T>, id: PeerId, c: Channel<T>)
    requires forall a, b :: a != b && HasP2P(s, a) && HasP2P(s, b) ==> s.slots[a].chan != s.slots[b].chan
    ensures Installed(s.(slots := s.slots[id := c])) == Installed(s) - ChanAt(s, id) + (if c.P2P? then {c.chan} else {})
  {
    var s' := s.(slots := s.slots[id := c]);
    forall t | t in Installed(s) - ChanAt(s, id) ensures t in Installed(s') {
      var a :| HasP2P(s, a) && s.slots[a].chan == t;
      assert HasP2P(s', a) && s'.slots[a].chan == t;
    }
    if c.P2P? {
      assert HasP2P(s', id) && s'.slots[id].chan == c.chan;
    }
  }

  lemma InstalledAfterRemove<T>(s: ChannelState<T>, id: PeerId)
    requires forall a, b :: a != b && HasP2P(s, a) && HasP2P(s, b) ==> s.slots[a].chan != s.slots[b].chan
    ensures Installed(s.(slots := s.slots - {id})) == Installed(s) - ChanAt(s, id)
  {
    var s' := s.(slots := s.slots - {id});
    forall t | t in Installed(s) - ChanAt(s, id) ensures t in Installed(s') {
      var a :| HasP2P(s, a) && s.slots[a].chan == t;
      assert HasP2P(s', a) && s'.slots[a].chan == t;
    }
  }

  /** The channels a step puts into the map. */
  ghost function Arrives<T>(s: ChannelState<T>, step: Step<T>): set<T> {
    match step
    case PassivePunch(id, t) => if HasP2P(s, id) then {} else {t}
    case Install(t) => {t}
    case _ => {}
  }

  lemma InstalledAfterStep<T>(s: ChannelState<T>, step: Step<T>)
    requires Ownership(s) && Enabled(s, step)
    ensures Installed(After(s, step)) == Installed(s) - Closes(s, step) + Arrives(s, step)
  {
    match step
    case OnDemandRelay(id, src, dst) => InstalledAfterPut(s, id, Relay(src, dst));
    case PassivePunch(id, t) => InstalledAfterPut(s, id, P2P(t));
    case Launch(id, t) =>
    case Install(t) => InstalledAfterPut(s, s.launched[t], P2P(t));
    case GiveUp(id, src, dst) => InstalledAfterPut(s, id, Relay(src, dst));
    case PeerGone(id) => InstalledAfterRemove(s, id);
    case LeaveRoom =>
  }

  lemma StepKeepsOwnership<T>(s: ChannelState<T>, step: Step<T>)
    requires Ownership(s) && Enabled(s, step)
    ensures Ownership(After(s, step))
  {
    InstalledAfterStep(s, step);
  }

  /** A step closes only channels that are open, and what leaves the map is closed by that step. */
  lemma ClosesOpenOnes<T>(s: ChannelState<T>, step: Step<T>)
    requires Ownership(s) && Enabled(s, step)
    ensures Closes(s, step) <= s.open
    ensures After(s, step).open == s.open - Closes(s, step) + (After(s, step).created - s.created)
    ensures Closes(s, step) == Installed(s) - Installed(After(s, step))
  {
    InstalledAfterStep(s, step);
  }

  // ---------------------------------------------------------------- whole runs

  ghost predicate IsRun<T>(states: seq<ChannelState<T>>, steps: seq<Step<T>>) {
    && |states| == |steps| + 1 && Start(states[0])
    && forall i :: 0 <= i < |steps| ==> Enabled(states[i], steps[i]) && states[i + 1] == After(states[i], steps[i])
  }

  /** Ownership holds at every point of every interleaving. */
  lemma {:induction false} RunKeepsOwnership<T>(states: seq<ChannelState<T>>, steps: seq<Step<T>>, n: nat)
    requires IsRun(states, steps) && n <= |steps|
    ensures Ownership(states[n])
    decreases n
  {
    if n > 0 {
      RunKeepsOwnership(states, steps, n - 1);
      StepKeepsOwnership(states[n - 1], steps[n - 1]);
    } else {
      assert Installed(states[0]) == {};
    }
  }

  /** No channel is ever closed twice: closed once, it is never open or closed again. */
  lemma {:induction false} ClosedAtMostOnce<T>(states: seq<ChannelState<T>>, steps: seq<Step<T>>, i: nat, j: nat, t: T)
    requires IsRun(states, steps) && i < j <= |steps|
    requires t in Closes(states[i], steps[i])
    ensures t in states[j].created && t !in states[j].open
    ensures j < |steps| ==> t !in Closes(states[j], steps[j])
    decreases j - i
  {
    RunKeepsOwnership(states, steps, i);
    RunKeepsOwnership(states, steps, j - 1);
    ClosesOpenOnes(states[i], steps[i]);
    if j == i + 1 {
    } else {
      ClosedAtMostOnce(states, steps, i, j - 1, t);
      ClosesOpenOnes(states[j - 1], steps[j - 1]);
    }
    if j < |steps| {
      RunKeepsOwnership(states, steps, j);
      ClosesOpenOnes(states[j], steps[j]);
    }
  }

  /** After LeaveRoom exactly the channels still being installed are open; so none is left open if
      and only if no punch is between creating its channel and installing it. */
  lemma LeaveRoomClosesAllIff<T>(states: seq<ChannelState<T>>, steps: seq<Step<T>>, n: nat)
    requires IsRun(states, steps) && n < |steps| && steps[n] == LeaveRoom
    ensures states[n + 1].open == states[n].launched.Keys
    ensures states[n + 1].open == {} <==> states[n].launched == map[]
  {
    RunKeepsOwnership(states, steps, n);
  }

  ghost function Rank<T>(s: ChannelState<T>, id: PeerId): nat {
    if id !in s.slots then 0 else if s.slots[id].Relay? then 1 else 2
  }

  /** Between removals of a peer its channel only moves from none to relay to P2P, whatever the
      interleaving of on-demand relays, passive punches and any number of punchPeer outcomes. */
  lemma {:induction false} NoDowngrade<T>(states: seq<ChannelState<T>>, steps: seq<Step<T>>, id: PeerId, i: nat, j: nat)
    requires IsRun(states, steps) && i <= j <= |steps|
    requires forall k :: i <= k < j ==> steps[k] != PeerGone(id) && steps[k] != LeaveRoom
    ensures Rank(states[i], id) <= Rank(states[j], id)
    decreases j - i
  {
    if i < j {
      NoDowngrade(states, steps, id, i, j - 1);
      assert states[j] == After(states[j - 1], steps[j - 1]);
    }
  }

  /** The only steps that lower a peer's rank are its own removals. */
  lemma DowngradeOnlyByRemoval<T>(s: ChannelState<T>, step: Step<T>, id: PeerId)
    requires Enabled(s, step)
    ensures Rank(After(s, step), id) < Rank(s, id) <==> id in s.slots && (step == PeerGone(id) || step == LeaveRoom)
  {
  }

  /** Leaving the room is not the end of every ping loop: of the channels that existed then, only
      those being installed can still be open later, but a punch that was waiting creates a new one. */
  lemma {:induction false} OpenAfterLeave<T>(states: seq<ChannelState<T>>, steps: seq<Step<T>>, n: nat, j: nat)
    requires IsRun(states, steps) && n < j <= |steps| && steps[n] == LeaveRoom
    ensures states[j].open * states[n].created <= states[n].launched.Keys
    ensures states[n].created <= states[j].created
    decreases j
  {
    RunKeepsOwnership(states, steps, n);
    if j > n + 1 {
      OpenAfterLeave(states, steps, n, j - 1);
      RunKeepsOwnership(states, steps, j - 1);
      ClosesOpenOnes(states[j - 1], steps[j - 1]);
    }
  }

  // ---------------------------------------------------------------- the locked sections themselves

  class P2PChannel {
    const peerAddr: Endpoint
    const srcVIP: nat
    const dstVIP: nat
    // Whether the ping loop has been told to stop.
    var stopped: bool

    /** The ping loop starts with the channel. */
    constructor (peerAddr: Endpoint, srcVIP: nat, dstVIP: nat)
      ensures !stopped && this.peerAddr == peerAddr && this.srcVIP == srcVIP && this.dstVIP == dstVIP
    {
      this.peerAddr, this.srcVIP, this.dstVIP, stopped := peerAddr, srcVIP, dstVIP, false;
    }

    /** May be called any number of times. */
    method Close()
      modifies this
      ensures stopped
    {
      if !stopped {
        stopped := true;
      }
    }
  }

  class Client {
    const peerMgr: PeerManager
    const serverAddr: Endpoint
    var channels: map<PeerId, Channel<P2PChannel>>
    // Every channel ever made, and those between creation and installation.
    ghost var created: set<P2PChannel>
    ghost var launched: map<P2PChannel, PeerId>

    ghost predicate Valid()
      reads this
    {
      && launched.Keys <= created
      && forall id :: id in channels && channels[id].P2P? ==> channels[id].chan in created
    }

    ghost function View(): ChannelState<P2PChannel>
      reads this, created
    {
      ChannelState(channels, created, (set c | c in created && !c.stopped), launched)
    }

    constructor (peerMgr: PeerManager, serverAddr: Endpoint)
      ensures Valid() && Start(View()) && this.peerMgr == peerMgr && this.serverAddr == serverAddr
    {
      this.peerMgr, this.serverAddr := peerMgr, serverAddr;
      channels, created, launched := map[], {}, map[];
    }

    method CloseOld(id: PeerId)
      requires Valid()
      modifies ChanAt(View(), id)
      ensures Valid() && View() == old(View()).(open := old(View()).open - old(ChanAt(View(), id)))
    {
      if id in channels && channels[id].P2P? {
        channels[id].chan.Close();
      }
    }

    /** The second, exclusive look of channelForVIP. */
    method OnDemand(id: PeerId, src: nat, dst: nat) returns (ch: Channel<P2PChannel>)
      requires Valid()
      modifies this`channels
      ensures Valid() && View() == After(old(View()), OnDemandRelay(id, src, dst))
      ensures id in channels && channels[id] == ch
    {
      if id in channels {
        return channels[id];
      }
      ch := Relay(src, dst);
      channels := channels[id := ch];
    }

    /** The channel to a host number: an unknown number is an error, a peer without a channel gets
        a relay one, and an existing channel is used as it is. */
    method ChannelForVIP(vip: nat) returns (ch: Option<Channel<P2PChannel>>)
      requires Valid()
      modifies this`channels
      ensures Valid()
      ensures ch == None <==> forall id :: id in peerMgr.peers ==> peerMgr.peers[id].vip != vip
      ensures ch == None ==> View() == old(View())
      ensures ch.Some? ==> exists id ::
        && id in peerMgr.peers && peerMgr.peers[id].vip == vip
        && View() == After(old(View()), OnDemandRelay(id, peerMgr.SelfVIP(), vip))
        && id in channels && channels[id] == ch.value
    {
      var p := peerMgr.GetByVIP(vip);
      if p == None {
        return None;
      }
      var id := p.value.id;
      if id in channels {
        return Some(channels[id]);
      }
      var relay := OnDemand(id, peerMgr.SelfVIP(), vip);
      ch := Some(relay);
    }

    /** The locked section of createPassiveP2P for the matching peer. */
    method PassiveSection(id: PeerId, vip: nat, remote: Endpoint) returns (made: P2PChannel?)
      requires Valid()
      modifies this`channels, this`created
      ensures Valid()
      ensures made == null <==> HasP2P(old(View()), id)
      ensures made == null ==> View() == old(View())
      ensures made != null ==> && fresh(made) && View() == After(old(View()), PassivePunch(id, made))
                               && made.peerAddr == remote && made.srcVIP == peerMgr.SelfVIP() && made.dstVIP == vip
    {
      if id in channels && channels[id].P2P? {
        return null;
      }
      CloseOld(id);
      made := new P2PChannel(remote, peerMgr.SelfVIP(), vip);
      channels, created := channels[id := P2P(made)], created + {made};
    }

    /** An incoming punch or ping: the first listed peer with that endpoint, if any, gets a direct
        channel to it unless it has one. */
    method CreatePassiveP2P(remote: Endpoint) returns (made: P2PChannel?)
      requires Valid()
      modifies this`channels, this`created
      ensures Valid()
      ensures made == null ==> View() == old(View())
      ensures made == null ==>
        || (forall id :: id in peerMgr.peers ==> peerMgr.peers[id].addr != remote)
        || exists id :: id in peerMgr.peers && peerMgr.peers[id].addr == remote && HasP2P(View(), id)
      ensures made != null ==> fresh(made) && made.peerAddr == remote && made.srcVIP == peerMgr.SelfVIP()
      ensures made != null ==> exists id ::
        && id in peerMgr.peers && peerMgr.peers[id].addr == remote && made.dstVIP == peerMgr.peers[id].vip
        && !HasP2P(old(View()), id) && View() == After(old(View()), PassivePunch(id, made))
    {
      var list := peerMgr.List();
      for i := 0 to |list|
        invariant View() == old(View()) && Valid()
        invariant forall j :: 0 <= j < i ==> list[j].info.addr != remote
      {
        if list[i].info.addr == remote {
          assert list[i] in list;
          made := PassiveSection(list[i].id, list[i].info.vip, remote);
          return;
        }
      }
      forall id | id in peerMgr.peers ensures peerMgr.peers[id].addr != remote {
        assert PeerInfo(id, peerMgr.peers[id]) in list;
      }
      return null;
    }

    /** punchPeer, first half of a success: the channel is made before the lock is taken. */
    method PunchWon(id: PeerId, addr: Endpoint, vip: nat) returns (ch: P2PChannel)
      requires Valid()
      modifies this`created, this`launched
      ensures Valid() && fresh(ch) && View() == After(old(View()), Launch(id, ch))
      ensures ch.peerAddr == addr && ch.srcVIP == peerMgr.SelfVIP() && ch.dstVIP == vip
    {
      ch := new P2PChannel(addr, peerMgr.SelfVIP(), vip);
      created, launched := created + {ch}, launched[ch := id];
    }

    /** Second half: whatever the peer's channel was is closed and replaced. */
    method InstallWinner(id: PeerId, ch: P2PChannel)
      requires Valid() && ch in launched && launched[ch] == id
      modifies this`channels, this`launched, ChanAt(View(), id)
      ensures Valid() && View() == After(old(View()), Install(ch))
    {
      CloseOld(id);
      channels, launched := channels[id := P2P(ch)], launched - {ch};
    }

    /** punchPeer, all attempts failed: relay, unless a direct channel has appeared meanwhile. */
    method PunchLost(id: PeerId, vip: nat)
      requires Valid()
      modifies this`channels
      ensures Valid() && View() == After(old(View()), GiveUp(id, peerMgr.SelfVIP(), vip))
    {
      if id in channels && channels[id].P2P? {
        return;
      }
      CloseOld(id);
      channels := channels[id := Relay(peerMgr.SelfVIP(), vip)];
    }

    /** handlePeerLeave: the peer's record, its times and its channel go. */
    method HandlePeerLeave(me: PeerId, id: PeerId)
      requires Valid() && peerMgr.Valid()
      modifies this`channels, peerMgr, ChanAt(View(), id)
      ensures Valid() && View() == After(old(View()), PeerGone(id))
      ensures peerMgr.Valid() && peerMgr.Seen() == Membership.Apply(me, old(peerMgr.Seen()), PeerLeave(id))
    {
      peerMgr.Handle(me, PeerLeave(id));
      CloseOld(id);
      channels := channels - {id};
    }

    method CloseAll()
      requires Valid()
      modifies Installed(View())
      ensures Valid() && View() == old(View()).(open := old(View()).open - Installed(old(View())))
    {
      var rest := channels.Keys;
      while rest != {}
        invariant rest <= channels.Keys
        invariant forall c :: c in created ==>
          (c.stopped <==> old(c.stopped) || exists k :: k in channels && k !in rest && channels[k] == P2P(c))
        decreases rest
      {
        var k :| k in rest;
        if channels[k].P2P? {
          channels[k].chan.Close();
        }
        rest := rest - {k};
      }
    }

    /** LeaveRoom: every installed channel is closed, map and records are emptied. */
    method CloseRoom()
      requires Valid()
      modifies this`channels, peerMgr, Installed(View())
      ensures Valid() && View() == After(old(View()), LeaveRoom)
      ensures peerMgr.Valid() && peerMgr.Seen() == EMPTY_VIEW
    {
      CloseAll();
      channels := map[];
      peerMgr.Reset();
    }
  }
}
