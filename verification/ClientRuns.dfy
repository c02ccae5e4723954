/** One client's record of its room, its channels, its hole-punching attempts and the work between
    them (client/core/client.go), composed: Channels and Punches run side by side, a direct channel is
    launched only by a punch whose attempt succeeded, and every number stored in a channel was read
    from the record or from the message that started the work. One locked section is one act; acts of
    different goroutines interleave in any order. */
module ClientRuns {
  import opened Vip
  import opened Options
  import opened Membership
  import Channels
  import Punches

  // Identifies a punchPeer call and its notification, a direct channel, or an errand.
  type Id = nat

  // What a direct channel keeps for good.
  datatype Ends = Ends(addr: Endpoint, src: nat, dst: nat)

  datatype Stage =
    | Selecting            // waiting for its attempt
    | Resigning(src: nat)  // the attempt has returned; own number read for a relay channel
    | Holding(chan: Id)    // a direct channel made, not yet installed
    | Over

  datatype Punch = Punch(peer: PeerInfo, stage: Stage)

  datatype Errand =
    | Sending(id: PeerId, dst: nat)                                // channelForVIP: the peer found
    | Equipped(id: PeerId, dst: nat, src: nat)                     // and own number read
    | Answering(remote: Endpoint, src: nat)                        // createPassiveP2P: own number read
    | Matched(remote: Endpoint, src: nat, id: PeerId, dst: nat)    // and a listed peer matched

  /** heard are all peers ever recorded, own all numbers recorded for oneself, and due the recorded peers
      whose punch has yet to begin: each time a peer is recorded from a message, one begins. */
  datatype Local = Local(record: View, heard: set<PeerInfo>, own: set<nat>, due: multiset<PeerInfo>,
                         chans: Channels.ChannelState<Id>, ends: map<Id, Ends>,
                         table: Punches.PunchState<Id>, punches: map<Id, Punch>, refused: set<Id>,
                         errands: map<Id, Errand>)

  datatype Act =
    // the record: Reset, SetSelf, Upsert, Remove
    | Forget
    | NoteSelf(info: Info)
    | Note(peer: PeerInfo)
    | Drop(id: PeerId)
    // the channel sections of handlePeerLeave and LeaveRoom, LeaveRoom's section on the table, a reply
    | DropChannel(id: PeerId)
    | DropChannels
    | CloseWaiting
    | Reply(from: Endpoint)
    // punchPeer and its punchOne
    | Begin(k: Id, peer: PeerInfo)
    | Register(k: Id)
    | Refuse(k: Id)
    | Return(k: Id, ok: bool)
    | Cleanup(k: Id)
    | Resign(k: Id)
    | GiveUp(k: Id)
    | Launch(k: Id, chan: Id)
    | Install(k: Id)
    | Abandon(k: Id)
    // channelForVIP and createPassiveP2P
    | Find(e: Id, id: PeerId)
    | Equip(e: Id)
    | Ensure(e: Id)
    | Hear(e: Id, remote: Endpoint)
    | Match(e: Id, id: PeerId)
    | Accept(e: Id, chan: Id)

  function SelfVIP(v: View): nat {
    if v.self.Some? then v.self.value.vip else 0
  }

  // ---------------------------------------------------------------- what an act does

  function RecordAfter(v: View, act: Act): View {
    match act
    case Forget => EMPTY_VIEW
    case NoteSelf(info) => v.(self := Some(info))
    case Note(p) => v.(peers := v.peers[p.id := p.info])
    case Drop(id) => v.(peers := v.peers - {id})
    case _ => v
  }

  /** The punch exists and is at the given point. */
  ghost predicate Selects(s: Local, k: Id) { k in s.punches && s.punches[k].stage.Selecting? }
  ghost predicate Resigns(s: Local, k: Id) { k in s.punches && s.punches[k].stage.Resigning? }
  ghost predicate Holds(s: Local, k: Id) { k in s.punches && s.punches[k].stage.Holding? }

  /** The section of module Channels an act runs, if any. */
  ghost function ChanStep(s: Local, act: Act): Option<Channels.Step<Id>> {
    match act
    case DropChannel(id) => Some(Channels.PeerGone(id))
    case DropChannels => Some(Channels.LeaveRoom)
    case GiveUp(k) =>
      if Resigns(s, k) then
        Some(Channels.GiveUp(s.punches[k].peer.id, s.punches[k].stage.src, s.punches[k].peer.info.vip))
      else None
    case Launch(k, t) => if Selects(s, k) then Some(Channels.Launch(s.punches[k].peer.id, t)) else None
    case Install(k) => if Holds(s, k) then Some(Channels.Install(s.punches[k].stage.chan)) else None
    case Ensure(e) =>
      if e in s.errands && s.errands[e].Equipped? then
        Some(Channels.OnDemandRelay(s.errands[e].id, s.errands[e].src, s.errands[e].dst))
      else None
    case Accept(e, t) =>
      if e in s.errands && s.errands[e].Matched? then Some(Channels.PassivePunch(s.errands[e].id, t)) else None
    case _ => None
  }

  /** The section of module Punches an act runs, if any. */
  ghost function TableStep(s: Local, act: Act): Option<Punches.Step<Id>> {
    match act
    case CloseWaiting => Some(Punches.LeaveRoom)
    case Reply(from) => Some(Punches.Reply(from))
    case Register(k) => if k in s.punches then Some(Punches.Register(s.punches[k].peer.info.addr, k)) else None
    case Refuse(k) => if k in s.punches then Some(Punches.Refuse(s.punches[k].peer.info.addr)) else None
    case Return(k, ok) => Some(Punches.Return(k, ok))
    case Cleanup(k) => Some(Punches.Cleanup(k))
    case _ => None
  }

  /** punchOne has come back to punchPeer: refused, or returned and cleaned up. */
  ghost predicate CameBack(s: Local, k: Id) {
    k in s.refused || k in s.table.cleaned
  }

  ghost predicate Succeeded(s: Local, k: Id) {
    k in s.table.cleaned && k in s.table.result && s.table.result[k]
  }

  ghost predicate Ready(s: Local, act: Act) {
    match act
    case Begin(k, p) => k !in s.punches && p in s.due
    case Register(k) => k in s.punches && k !in s.refused
    case Refuse(k) => k in s.punches && k !in s.refused && k !in s.table.key
    case Resign(k) => Selects(s, k) && CameBack(s, k)
    case GiveUp(k) => Resigns(s, k)
    case Launch(k, _) => Selects(s, k) && Succeeded(s, k)
    case Install(k) => Holds(s, k)
    case Abandon(k) => Selects(s, k)
    case Find(e, id) => e !in s.errands && id in s.record.peers
    case Equip(e) => e in s.errands && s.errands[e].Sending?
    case Ensure(e) => e in s.errands && s.errands[e].Equipped?
    case Hear(e, _) => e !in s.errands
    case Match(e, id) =>
      && e in s.errands && s.errands[e].Answering?
      && id in s.record.peers && s.record.peers[id].addr == s.errands[e].remote
    case Accept(e, _) => e in s.errands && s.errands[e].Matched?
    case _ => true
  }

  ghost predicate Enabled(s: Local, act: Act) {
    && Ready(s, act)
    && (ChanStep(s, act).Some? ==> Channels.Enabled(s.chans, ChanStep(s, act).value))
    && (TableStep(s, act).Some? ==> Punches.Enabled(s.table, TableStep(s, act).value))
  }

  ghost function EndsAfter(s: Local, act: Act): map<Id, Ends>
    requires Enabled(s, act)
  {
    match act
    case Launch(k, t) =>
      var p := s.punches[k].peer;
      s.ends[t := Ends(p.info.addr, SelfVIP(s.record), p.info.vip)]
    case Accept(e, t) =>
      var w := s.errands[e];
      if Channels.HasP2P(s.chans, w.id) then s.ends else s.ends[t := Ends(w.remote, w.src, w.dst)]
    case _ => s.ends
  }

  ghost function PunchesAfter(s: Local, act: Act): map<Id, Punch>
    requires Enabled(s, act)
  {
    match act
    case Begin(k, p) => s.punches[k := Punch(p, Selecting)]
    case Resign(k) => s.punches[k := s.punches[k].(stage := Resigning(SelfVIP(s.record)))]
    case Launch(k, t) => s.punches[k := s.punches[k].(stage := Holding(t))]
    case GiveUp(k) => s.punches[k := s.punches[k].(stage := Over)]
    case Install(k) => s.punches[k := s.punches[k].(stage := Over)]
    case Abandon(k) => s.punches[k := s.punches[k].(stage := Over)]
    case _ => s.punches
  }

  ghost function ErrandsAfter(s: Local, act: Act): map<Id, Errand>
    requires Enabled(s, act)
  {
    match act
    case Find(e, id) => s.errands[e := Sending(id, s.record.peers[id].vip)]
    case Equip(e) => s.errands[e := Equipped(s.errands[e].id, s.errands[e].dst, SelfVIP(s.record))]
    case Ensure(e) => s.errands - {e}
    case Hear(e, remote) => s.errands[e := Answering(remote, SelfVIP(s.record))]
    case Match(e, id) => s.errands[e := Matched(s.errands[e].remote, s.errands[e].src, id, s.record.peers[id].vip)]
    case Accept(e, _) => s.errands - {e}
    case _ => s.errands
  }

  function HeardBy(act: Act): set<PeerInfo> {
    if act.Note? then {act.peer} else {}
  }

  function OwnBy(act: Act): set<nat> {
    if act.NoteSelf? then {act.info.vip} else {}
  }

  ghost function After(s: Local, act: Act): Local
    requires Enabled(s, act)
  {
    var chan, table := ChanStep(s, act), TableStep(s, act);
    Local(RecordAfter(s.record, act),
          s.heard + HeardBy(act),
          s.own + OwnBy(act),
          if act.Note? then s.due + multiset{act.peer} else if act.Begin? then s.due - multiset{act.peer} else s.due,
          if chan.Some? then Channels.After(s.chans, chan.value) else s.chans,
          EndsAfter(s, act),
          if table.Some? then Punches.After(s.table, table.value) else s.table,
          PunchesAfter(s, act),
          if act.Refuse? then s.refused + {act.k} else s.refused,
          ErrandsAfter(s, act))
  }

  // ---------------------------------------------------------------- runs and the invariant

  ghost predicate Start(s: Local) {
    && s.record == EMPTY_VIEW && s.heard == {} && s.own == {} && s.due == multiset{}
    && Channels.Start(s.chans) && s.ends == map[] && Punches.Start(s.table)
    && s.punches == map[] && s.refused == {} && s.errands == map[]
  }

  /** The acts can be done one after the other from s. */
  ghost predicate Legal(s: Local, acts: seq<Act>)
    decreases |acts|
  {
    |acts| == 0 || (Enabled(s, acts[0]) && Legal(After(s, acts[0]), acts[1..]))
  }

  /** Where they lead. */
  ghost function Exec(s: Local, acts: seq<Act>): Local
    requires Legal(s, acts)
    decreases |acts|
  {
    if |acts| == 0 then s else Exec(After(s, acts[0]), acts[1..])
  }

  lemma ExecFirst(s: Local, act: Act, rest: seq<Act>)
    ensures Legal(s, [act] + rest) <==> Enabled(s, act) && Legal(After(s, act), rest)
    ensures Legal(s, [act] + rest) ==> Exec(s, [act] + rest) == Exec(After(s, act), rest)
  {
    assert ([act] + rest)[1..] == rest;
  }

  lemma {:induction false} ExecAppend(s: Local, a: seq<Act>, b: seq<Act>)
    ensures Legal(s, a + b) <==> Legal(s, a) && Legal(Exec(s, a), b)
    ensures Legal(s, a + b) ==> Exec(s, a + b) == Exec(Exec(s, a), b)
    decreases |a|
  {
    if |a| == 0 {
      assert a + b == b;
    } else {
      assert (a + b)[0] == a[0] && (a + b)[1..] == a[1..] + b;
      if Enabled(s, a[0]) {
        ExecAppend(After(s, a[0]), a[1..], b);
      }
    }
  }

  /** One more act at the end. */
  lemma ExecLast(s: Local, acts: seq<Act>, act: Act)
    requires Legal(s, acts) && Enabled(Exec(s, acts), act)
    ensures Legal(s, acts + [act]) && Exec(s, acts + [act]) == After(Exec(s, acts), act)
  {
    ExecAppend(s, acts, [act]);
    assert [act][1..] == [];
  }

  ghost predicate PunchesTied(s: Local) {
    && s.table.key.Keys <= s.punches.Keys && s.refused <= s.punches.Keys && s.refused !! s.table.key.Keys
    && forall k :: k in s.table.key ==> s.table.key[k] == s.punches[k].peer.info.addr
  }

  /** The channel a punch holds is waiting for its peer, and was made for what the punch was told. */
  ghost predicate HolderTied(s: Local, p: Punch)
    requires p.stage.Holding?
  {
    var t := p.stage.chan;
    && t in s.chans.launched && s.chans.launched[t] == p.peer.id
    && t in s.ends && s.ends[t].addr == p.peer.info.addr && s.ends[t].dst == p.peer.info.vip
  }

  ghost predicate HoldersTied(s: Local) {
    && (forall k :: Holds(s, k) ==> HolderTied(s, s.punches[k]))
    && (forall j, k :: Holds(s, j) && Holds(s, k) && j != k ==> s.punches[j].stage.chan != s.punches[k].stage.chan)
  }

  ghost predicate Sound(s: Local) {
    && Channels.Ownership(s.chans) && Punches.Inv(s.table)
    && s.ends.Keys == s.chans.created
    && PunchesTied(s) && HoldersTied(s)
  }

  lemma ActKeepsParts(s: Local, act: Act)
    requires Sound(s) && Enabled(s, act)
    ensures Channels.Ownership(After(s, act).chans) && Punches.Inv(After(s, act).table)
  {
    var chan, table := ChanStep(s, act), TableStep(s, act);
    if chan.Some? {
      Channels.StepKeepsOwnership(s.chans, chan.value);
    }
    if table.Some? {
      Punches.StepKeepsInv(s.table, table.value);
    }
  }

  lemma ActKeepsEnds(s: Local, act: Act)
    requires s.ends.Keys == s.chans.created && Enabled(s, act)
    ensures After(s, act).ends.Keys == After(s, act).chans.created
  {
  }

  lemma KeysAfter(s: Local, act: Act)
    requires Enabled(s, act)
    ensures After(s, act).table.key ==
            if act.Register? then s.table.key[act.k := s.punches[act.k].peer.info.addr] else s.table.key
  {
  }

  lemma PeersAfter(s: Local, act: Act, k: Id)
    requires Enabled(s, act) && k in s.punches
    ensures k in After(s, act).punches && After(s, act).punches[k].peer == s.punches[k].peer
  {
  }

  lemma ActKeepsPunchesTied(s: Local, act: Act)
    requires PunchesTied(s) && Enabled(s, act)
    ensures PunchesTied(After(s, act))
  {
    var s' := After(s, act);
    KeysAfter(s, act);
    forall k | k in s.punches ensures k in s'.punches && s'.punches[k].peer == s.punches[k].peer {
      PeersAfter(s, act, k);
    }
  }

  /** What a direct channel was made with never changes. */
  lemma EndsStay(s: Local, act: Act, t: Id)
    requires Enabled(s, act) && s.ends.Keys == s.chans.created && t in s.ends
    ensures t in After(s, act).ends && After(s, act).ends[t] == s.ends[t]
  {
  }

  lemma LaunchedStay(s: Local, act: Act, t: Id)
    requires Enabled(s, act) && t in s.chans.launched && t in s.chans.created
    requires act.Install? ==> s.punches[act.k].stage.chan != t
    ensures t in After(s, act).chans.launched && After(s, act).chans.launched[t] == s.chans.launched[t]
  {
  }

  lemma HolderStays(s: Local, act: Act, k: Id)
    requires Channels.Ownership(s.chans) && s.ends.Keys == s.chans.created && HoldersTied(s) && Enabled(s, act)
    requires Holds(s, k) && act != Install(k)
    ensures After(s, act).punches[k] == s.punches[k] && HolderTied(After(s, act), s.punches[k])
  {
    assert HolderTied(s, s.punches[k]);
    EndsStay(s, act, s.punches[k].stage.chan);
    LaunchedStay(s, act, s.punches[k].stage.chan);
    StageStays(s, act, k);
  }

  lemma StageStays(s: Local, act: Act, k: Id)
    requires Enabled(s, act) && Holds(s, k) && act != Install(k)
    ensures After(s, act).punches[k] == s.punches[k]
  {
  }

  lemma HolderBefore(s: Local, act: Act, k: Id)
    requires Enabled(s, act) && Holds(After(s, act), k)
    ensures act != Install(k) && (Holds(s, k) || (act.Launch? && act.k == k && Selects(s, k)))
  {
  }

  lemma ActKeepsHoldersTied(s: Local, act: Act)
    requires Channels.Ownership(s.chans) && s.ends.Keys == s.chans.created && HoldersTied(s) && Enabled(s, act)
    ensures HoldersTied(After(s, act))
  {
    var s' := After(s, act);
    forall k | Holds(s', k) ensures HolderTied(s', s'.punches[k]) {
      HolderBefore(s, act, k);
      if Holds(s, k) {
        HolderStays(s, act, k);
      }
    }
    forall j, k | Holds(s', j) && Holds(s', k) && j != k ensures s'.punches[j].stage.chan != s'.punches[k].stage.chan {
      HolderBefore(s, act, j);
      HolderBefore(s, act, k);
      if Holds(s, j) { HolderStays(s, act, j); }
      if Holds(s, k) { HolderStays(s, act, k); }
    }
  }

  lemma ActKeepsSound(s: Local, act: Act)
    requires Sound(s) && Enabled(s, act)
    ensures Sound(After(s, act))
  {
    ActKeepsParts(s, act);
    ActKeepsEnds(s, act);
    ActKeepsPunchesTied(s, act);
    ActKeepsHoldersTied(s, act);
  }

  lemma {:induction false} ExecKeepsSound(s: Local, acts: seq<Act>)
    requires Sound(s) && Legal(s, acts)
    ensures Sound(Exec(s, acts))
    decreases |acts|
  {
    if |acts| > 0 {
      ActKeepsSound(s, acts[0]);
      ExecKeepsSound(After(s, acts[0]), acts[1..]);
    }
  }

  lemma StartSound(s: Local)
    requires Start(s)
    ensures Sound(s)
  {
    assert Channels.Installed(s.chans) == {};
  }

  // ---------------------------------------------------------------- the acts of a message

  function NoteAll(me: PeerId, infos: seq<PeerInfo>): seq<Act> {
    if |infos| == 0 then []
    else
      var p := infos[|infos| - 1];
      NoteAll(me, infos[..|infos| - 1]) + [if p.id == me then NoteSelf(p.info) else Note(p)]
  }

  /** What the handler of a message does to the record and the channels, punches aside. */
  function MessageActs(me: PeerId, msg: Msg): seq<Act> {
    match msg
    case RoomStatus(infos, _, _) => [Forget] + NoteAll(me, infos)
    case PeerAddress(p) => [Note(p)]
    case PeerLeave(id) => [Drop(id), DropChannel(id)]
  }

  lemma {:induction false} NoteAllRecords(me: PeerId, infos: seq<PeerInfo>, s: Local)
    requires s.record == EMPTY_VIEW
    ensures Legal(s, NoteAll(me, infos)) && Exec(s, NoteAll(me, infos)).record == ApplyStatus(me, infos)
    decreases |infos|
  {
    if |infos| > 0 {
      var p := infos[|infos| - 1];
      NoteAllRecords(me, infos[..|infos| - 1], s);
      ExecLast(s, NoteAll(me, infos[..|infos| - 1]), if p.id == me then NoteSelf(p.info) else Note(p));
    }
  }

  /** They can always be done, and leave the record as the protocol's view function says. */
  lemma MessageRecords(me: PeerId, msg: Msg, s: Local)
    ensures Legal(s, MessageActs(me, msg))
    ensures Exec(s, MessageActs(me, msg)).record == Apply(me, s.record, msg)
  {
    match msg
    case RoomStatus(infos, _, _) =>
      NoteAllRecords(me, infos, After(s, Forget));
      ExecFirst(s, Forget, NoteAll(me, infos));
    case PeerAddress(p) =>
      ExecFirst(s, Note(p), []);
      assert [Note(p)] + [] == [Note(p)];
    case PeerLeave(id) =>
      ExecFirst(After(s, Drop(id)), DropChannel(id), []);
      ExecFirst(s, Drop(id), [DropChannel(id)]);
      assert [DropChannel(id)] + [] == [DropChannel(id)];
      assert [Drop(id)] + [DropChannel(id)] == [Drop(id), DropChannel(id)];
  }

  // ---------------------------------------------------------------- a common beginning

  /** One punch towards p, its attempt registered, and nothing else. */
  ghost predicate Punching(s: Local, mine: Info, p: PeerInfo) {
    && s.record == View(Some(mine), map[p.id := p.info])
    && s.heard == {p} && s.own == {mine.vip} && s.due == multiset{}
    && Channels.Start(s.chans) && s.ends == map[] && s.refused == {} && s.errands == map[]
    && s.punches == map[0 := Punch(p, Selecting)]
    && s.table == Punches.PunchState(map[p.info.addr := 0], map[0 := p.info.addr], map[], map[], {})
  }

  /** Oneself and p are recorded. */
  lemma ListPhase(start: Local, mine: Info, p: PeerInfo) returns (acts: seq<Act>)
    requires Start(start)
    ensures acts == [Forget, NoteSelf(mine), Note(p)] && Legal(start, acts)
    ensures Exec(start, acts) == start.(record := View(Some(mine), map[p.id := p.info]), heard := {p},
                                        own := {mine.vip}, due := multiset{p})
  {
    var s1 := After(start, Forget);
    var s2 := After(s1, NoteSelf(mine));
    ExecFirst(s2, Note(p), []);
    ExecFirst(s1, NoteSelf(mine), [Note(p)]);
    ExecFirst(start, Forget, [NoteSelf(mine)] + [Note(p)]);
    assert [Note(p)] + [] == [Note(p)];
    acts := [Forget] + ([NoteSelf(mine)] + [Note(p)]);
  }

  /** A recorded peer's punch begins, and registers. */
  lemma BeginPhase(s: Local, k: Id, p: PeerInfo) returns (acts: seq<Act>)
    requires p in s.due && k !in s.punches && k !in s.table.key && k !in s.refused && p.info.addr !in s.table.pending
    ensures acts == [Begin(k, p), Register(k)] && Legal(s, acts)
    ensures var t := s.table;
            Exec(s, acts) == s.(due := s.due - multiset{p}, punches := s.punches[k := Punch(p, Selecting)],
                                table := t.(pending := t.pending[p.info.addr := k], key := t.key[k := p.info.addr]))
  {
    var begun := After(s, Begin(k, p));
    ExecFirst(begun, Register(k), []);
    ExecFirst(s, Begin(k, p), [Register(k)]);
    assert [Register(k)] + [] == [Register(k)];
    acts := [Begin(k, p)] + [Register(k)];
  }

  lemma JoinPhase(start: Local, mine: Info, p: PeerInfo) returns (acts: seq<Act>)
    requires Start(start)
    ensures acts == [Forget, NoteSelf(mine), Note(p), Begin(0, p), Register(0)]
    ensures Legal(start, acts) && Punching(Exec(start, acts), mine, p)
  {
    var list := ListPhase(start, mine, p);
    var begin := BeginPhase(Exec(start, list), 0, p);
    ExecAppend(start, list, begin);
    acts := list + begin;
  }
}
