/** The numbers a client's channels were made with (client/netconn/channel.go) beside its record of the
    room (client/core/client.go): where they come from, exactly when they are current over a whole run,
    and a run at the end of which one is stale with nothing under way. */
module StoredNumbers {
  import opened Vip
  import opened Options
  import opened Membership
  import opened ClientRuns
  import opened Following
  import Channels
  import Punches

  // One's own number and the peer's, fixed when the channel is made.
  datatype Stored = Stored(src: nat, dst: nat)

  ghost function StoredIn(s: Local, ch: Channels.Channel<Id>): Stored {
    match ch
    case Relay(src, dst) => Stored(src, dst)
    case P2P(t) => if t in s.ends then Stored(s.ends[t].src, s.ends[t].dst) else Stored(0, 0)
  }

  /** Numbers stored for a peer agree with the record, as far as it knows. */
  predicate Agrees(v: View, id: PeerId, st: Stored) {
    && (v.self.Some? ==> st.src == v.self.value.vip)
    && (id in v.peers ==> st.dst == v.peers[id].vip)
  }

  ghost predicate Current(s: Local) {
    forall id :: id in s.chans.slots ==> Agrees(s.record, id, StoredIn(s, s.chans.slots[id]))
  }

  // ---------------------------------------------------------------- exactly when they are current

  datatype Write = Write(id: PeerId, stored: Stored)

  /** What an act writes into the channel map. */
  ghost function Written(s: Local, act: Act): Option<Write> {
    match act
    case Install(k) =>
      if Holds(s, k) then
        Some(Write(s.punches[k].peer.id, StoredIn(s, Channels.P2P(s.punches[k].stage.chan))))
      else None
    case GiveUp(k) =>
      if Resigns(s, k) && !Channels.HasP2P(s.chans, s.punches[k].peer.id) then
        Some(Write(s.punches[k].peer.id, Stored(s.punches[k].stage.src, s.punches[k].peer.info.vip)))
      else None
    case Ensure(e) =>
      if e in s.errands && s.errands[e].Equipped? && s.errands[e].id !in s.chans.slots then
        Some(Write(s.errands[e].id, Stored(s.errands[e].src, s.errands[e].dst)))
      else None
    case Accept(e, _) =>
      if e in s.errands && s.errands[e].Matched? && !Channels.HasP2P(s.chans, s.errands[e].id) then
        Some(Write(s.errands[e].id, Stored(s.errands[e].src, s.errands[e].dst)))
      else None
    case _ => None
  }

  /** The act is at odds with the record or the map: it notes another number than a kept channel has, or
      writes numbers that are no longer those on record. */
  ghost predicate Stale(s: Local, act: Act) {
    match act
    case NoteSelf(info) => exists id :: id in s.chans.slots && StoredIn(s, s.chans.slots[id]).src != info.vip
    case Note(p) => p.id in s.chans.slots && StoredIn(s, s.chans.slots[p.id]).dst != p.info.vip
    case _ => Written(s, act).Some? && !Agrees(s.record, Written(s, act).value.id, Written(s, act).value.stored)
  }

  lemma StoredStays(s: Local, act: Act, ch: Channels.Channel<Id>)
    requires Enabled(s, act) && s.ends.Keys == s.chans.created && (ch.P2P? ==> ch.chan in s.ends)
    ensures StoredIn(After(s, act), ch) == StoredIn(s, ch)
  {
    if ch.P2P? {
      EndsStay(s, act, ch.chan);
    }
  }

  /** An act leaves every channel as it was, but for the one it writes and those it removes. */
  lemma SlotsAfter(s: Local, act: Act, id: PeerId)
    requires Sound(s) && Enabled(s, act) && id in After(s, act).chans.slots
    ensures var w, s' := Written(s, act), After(s, act);
            if w.Some? && w.value.id == id then StoredIn(s', s'.chans.slots[id]) == w.value.stored
            else id in s.chans.slots && StoredIn(s', s'.chans.slots[id]) == StoredIn(s, s.chans.slots[id])
  {
    if id in s.chans.slots {
      if s.chans.slots[id].P2P? {
        assert s.chans.slots[id].chan in Channels.Installed(s.chans);
      }
      StoredStays(s, act, s.chans.slots[id]);
    }
    if act.Install? {
      StoredStays(s, act, Channels.P2P(s.punches[act.k].stage.chan));
    }
  }

  /** A written channel is there, and nothing is removed by an act that writes or notes. */
  lemma SlotsStay(s: Local, act: Act)
    requires Sound(s) && Enabled(s, act)
    ensures Written(s, act).Some? ==> Written(s, act).value.id in After(s, act).chans.slots
    ensures act.Note? || act.NoteSelf? ==> After(s, act).chans == s.chans && After(s, act).ends == s.ends
  {
  }

  lemma ActCurrentIff(s: Local, act: Act)
    requires Sound(s) && Enabled(s, act) && Current(s)
    ensures Current(After(s, act)) <==> !Stale(s, act)
  {
    var s' := After(s, act);
    SlotsStay(s, act);
    if Stale(s, act) {
      StaleShows(s, act);
    } else {
      forall id | id in s'.chans.slots ensures Agrees(s'.record, id, StoredIn(s', s'.chans.slots[id])) {
        SlotsAfter(s, act, id);
      }
    }
  }

  lemma StaleShows(s: Local, act: Act)
    requires Sound(s) && Enabled(s, act) && Stale(s, act)
    ensures !Current(After(s, act))
  {
    var s' := After(s, act);
    SlotsStay(s, act);
    if act.NoteSelf? {
      var id :| id in s.chans.slots && StoredIn(s, s.chans.slots[id]).src != act.info.vip;
      SlotsAfter(s, act, id);
      assert !Agrees(s'.record, id, StoredIn(s', s'.chans.slots[id]));
    } else if act.Note? {
      SlotsAfter(s, act, act.peer.id);
      assert !Agrees(s'.record, act.peer.id, StoredIn(s', s'.chans.slots[act.peer.id]));
    } else {
      var w := Written(s, act).value;
      SlotsAfter(s, act, w.id);
      assert !Agrees(s'.record, w.id, StoredIn(s', s'.chans.slots[w.id]));
    }
  }

  ghost predicate CurrentThroughout(s: Local, acts: seq<Act>)
    requires Legal(s, acts)
    decreases |acts|
  {
    Current(s) && (|acts| > 0 ==> CurrentThroughout(After(s, acts[0]), acts[1..]))
  }

  ghost predicate NeverStale(s: Local, acts: seq<Act>)
    requires Legal(s, acts)
    decreases |acts|
  {
    |acts| > 0 ==> !Stale(s, acts[0]) && NeverStale(After(s, acts[0]), acts[1..])
  }

  /** Over a whole run: all stored numbers are current at every point exactly when no act of the run is
      stale at its point. */
  lemma {:induction false} CurrentIff(s: Local, acts: seq<Act>)
    requires Sound(s) && Legal(s, acts) && Current(s)
    ensures CurrentThroughout(s, acts) <==> NeverStale(s, acts)
    decreases |acts|
  {
    if |acts| > 0 {
      ActCurrentIff(s, acts[0]);
      if !Stale(s, acts[0]) {
        ActKeepsSound(s, acts[0]);
        CurrentIff(After(s, acts[0]), acts[1..]);
      }
    }
  }

  lemma RunCurrentIff(start: Local, acts: seq<Act>)
    requires Start(start) && Legal(start, acts)
    ensures CurrentThroughout(start, acts) <==> NeverStale(start, acts)
  {
    StartSound(start);
    CurrentIff(start, acts);
  }

  // ---------------------------------------------------------------- where they come from

  /** A number is one's own if the run was told so, or 0 before it was told any. */
  predicate OwnNumber(own: set<nat>, src: nat) {
    src == 0 || src in own
  }

  /** The run heard of the peer under that number. */
  ghost predicate HeardUnder(heard: set<PeerInfo>, id: PeerId, dst: nat) {
    exists p :: p in heard && p.id == id && p.info.vip == dst
  }

  ghost predicate EndsTraced(heard: set<PeerInfo>, own: set<nat>, ends: Ends, id: PeerId) {
    PeerInfo(id, Info(ends.dst, ends.addr)) in heard && OwnNumber(own, ends.src)
  }

  /** A relay channel's number for the peer was heard, a direct one's number and endpoint together. */
  ghost predicate ChannelTraced(heard: set<PeerInfo>, own: set<nat>, ends: map<Id, Ends>, id: PeerId,
                                ch: Channels.Channel<Id>) {
    match ch
    case Relay(src, dst) => HeardUnder(heard, id, dst) && OwnNumber(own, src)
    case P2P(t) => t in ends && EndsTraced(heard, own, ends[t], id)
  }

  ghost predicate ErrandTraced(heard: set<PeerInfo>, own: set<nat>, w: Errand) {
    match w
    case Sending(id, dst) => HeardUnder(heard, id, dst)
    case Equipped(id, dst, src) => HeardUnder(heard, id, dst) && OwnNumber(own, src)
    case Answering(_, src) => OwnNumber(own, src)
    case Matched(remote, src, id, dst) => EndsTraced(heard, own, Ends(remote, src, dst), id)
  }

  ghost predicate PunchTraced(heard: set<PeerInfo>, own: set<nat>, ends: map<Id, Ends>, p: Punch) {
    && p.peer in heard
    && (p.stage.Resigning? ==> OwnNumber(own, p.stage.src))
    && (p.stage.Holding? ==> ChannelTraced(heard, own, ends, p.peer.id, Channels.P2P(p.stage.chan)))
  }

  ghost predicate RecordTraced(heard: set<PeerInfo>, own: set<nat>, v: View) {
    && OwnNumber(own, SelfVIP(v))
    && forall id :: id in v.peers ==> PeerInfo(id, v.peers[id]) in heard
  }

  ghost predicate WorkTraced(s: Local, heard: set<PeerInfo>, own: set<nat>) {
    && (forall id :: id in s.chans.slots ==> ChannelTraced(heard, own, s.ends, id, s.chans.slots[id]))
    && (forall k :: k in s.punches ==> PunchTraced(heard, own, s.ends, s.punches[k]))
    && (forall e :: e in s.errands ==> ErrandTraced(heard, own, s.errands[e]))
  }

  ghost predicate Traced(s: Local) {
    && RecordTraced(s.heard, s.own, s.record)
    && (forall p :: p in s.due ==> p in s.heard)
    && WorkTraced(s, s.heard, s.own)
  }

  lemma RecordStaysTraced(s: Local, act: Act)
    requires Enabled(s, act) && Traced(s)
    ensures var s' := After(s, act);
            RecordTraced(s'.heard, s'.own, s'.record) && forall p :: p in s'.due ==> p in s'.heard
  {
  }

  lemma ChannelStaysTraced(heard: set<PeerInfo>, own: set<nat>, s: Local, act: Act, id: PeerId,
                           ch: Channels.Channel<Id>)
    requires Enabled(s, act) && s.ends.Keys == s.chans.created && ChannelTraced(heard, own, s.ends, id, ch)
    ensures ChannelTraced(heard, own, After(s, act).ends, id, ch)
  {
    if ch.P2P? {
      EndsStay(s, act, ch.chan);
    }
  }

  lemma ErrandsStayTraced(s: Local, act: Act)
    requires Enabled(s, act) && Traced(s)
    ensures forall e :: e in After(s, act).errands ==> ErrandTraced(s.heard, s.own, After(s, act).errands[e])
  {
  }

  lemma PunchStaysTraced(s: Local, act: Act, k: Id)
    requires Enabled(s, act) && s.ends.Keys == s.chans.created && Traced(s) && k in After(s, act).punches
    ensures PunchTraced(s.heard, s.own, After(s, act).ends, After(s, act).punches[k])
  {
    if k in s.punches {
      assert PunchTraced(s.heard, s.own, s.ends, s.punches[k]);
      if Holds(s, k) {
        ChannelStaysTraced(s.heard, s.own, s, act, s.punches[k].peer.id, Channels.P2P(s.punches[k].stage.chan));
      }
    }
  }

  /** What an act writes, and what it leaves, was traced before it. */
  lemma SlotStaysTraced(s: Local, act: Act, id: PeerId)
    requires Sound(s) && Enabled(s, act) && Traced(s) && id in After(s, act).chans.slots
    ensures ChannelTraced(s.heard, s.own, After(s, act).ends, id, After(s, act).chans.slots[id])
  {
    if id in s.chans.slots {
      ChannelStaysTraced(s.heard, s.own, s, act, id, s.chans.slots[id]);
    }
    if act.Install? {
      assert PunchTraced(s.heard, s.own, s.ends, s.punches[act.k]);
    } else if act.GiveUp? {
      assert PunchTraced(s.heard, s.own, s.ends, s.punches[act.k]);
    }
  }

  lemma HeardMore(s: Local, heard: set<PeerInfo>, own: set<nat>, heard': set<PeerInfo>, own': set<nat>)
    requires heard <= heard' && own <= own' && WorkTraced(s, heard, own)
    ensures WorkTraced(s, heard', own')
  {
  }

  lemma ActKeepsTraced(s: Local, act: Act)
    requires Sound(s) && Enabled(s, act) && Traced(s)
    ensures Traced(After(s, act))
  {
    var s' := After(s, act);
    RecordStaysTraced(s, act);
    ErrandsStayTraced(s, act);
    forall k | k in s'.punches ensures PunchTraced(s.heard, s.own, s'.ends, s'.punches[k]) {
      PunchStaysTraced(s, act, k);
    }
    forall id | id in s'.chans.slots ensures ChannelTraced(s.heard, s.own, s'.ends, id, s'.chans.slots[id]) {
      SlotStaysTraced(s, act, id);
    }
    HeardMore(s', s.heard, s.own, s'.heard, s'.own);
  }

  lemma {:induction false} ExecKeepsTraced(s: Local, acts: seq<Act>)
    requires Sound(s) && Legal(s, acts) && Traced(s)
    ensures Traced(Exec(s, acts))
    decreases |acts|
  {
    if |acts| > 0 {
      ActKeepsTraced(s, acts[0]);
      ActKeepsSound(s, acts[0]);
      ExecKeepsTraced(After(s, acts[0]), acts[1..]);
    }
  }

  /** No stored number or endpoint is made up: at the end of any run, whatever a channel has for its peer
      was told in one note of that peer, number and endpoint together where it has both; and its own
      number is one the run was told for itself, or 0. Starting a punch tells nothing. */
  lemma StoredWasTold(start: Local, acts: seq<Act>, id: PeerId)
    requires Start(start) && Legal(start, acts) && id in Exec(start, acts).chans.slots
    ensures var end := Exec(start, acts); var ch := end.chans.slots[id];
            && (exists p :: && p in Told(acts) && p.id == id && p.info.vip == StoredIn(end, ch).dst
                            && (ch.P2P? ==> ch.chan in end.ends && p.info.addr == end.ends[ch.chan].addr))
            && StoredIn(end, ch).src in {0} + ToldOwn(acts)
  {
    StartSound(start);
    ExecKeepsTraced(start, acts);
    ExecTold(start, acts);
    var end := Exec(start, acts);
    assert end.heard == Told(acts) && end.own == ToldOwn(acts);
    var ch := end.chans.slots[id];
    if ch.P2P? {
      assert PeerInfo(id, Info(end.ends[ch.chan].dst, end.ends[ch.chan].addr)) in Told(acts);
    }
  }

  // ---------------------------------------------------------------- a stale number with nothing under way

  /** The punch is over, its attempt returned and cleaned up or refused. */
  ghost predicate Finished(s: Local, k: Id) {
    k in s.punches && s.punches[k].stage.Over? && CameBack(s, k)
  }

  ghost predicate NothingUnderWay(s: Local) {
    && (forall k :: k in s.punches ==> Finished(s, k)) && s.due == multiset{}
    && s.errands == map[] && s.table.pending == map[]
  }

  /** The channel map after a fallback to relay. */
  ghost function FallBack(s: Local, p: PeerInfo): Channels.ChannelState<Id> {
    if Channels.HasP2P(s.chans, p.id) then s.chans
    else s.chans.(slots := s.chans.slots[p.id := Channels.Relay(SelfVIP(s.record), p.info.vip)])
  }

  lemma ResignPhase(s: Local, k: Id) returns (acts: seq<Act>)
    requires Selects(s, k) && CameBack(s, k)
    ensures acts == [Resign(k), GiveUp(k)] && Legal(s, acts)
    ensures var p := s.punches[k].peer;
            Exec(s, acts) == s.(punches := s.punches[k := Punch(p, Over)], chans := FallBack(s, p))
  {
    acts := [Resign(k)];
    ExecLast(s, [], Resign(k));
    assert [] + [Resign(k)] == acts;
    ExecLast(s, acts, GiveUp(k));
    acts := acts + [GiveUp(k)];
  }

  /** An attempt for a taken address is refused, and its punch falls back to relay. */
  lemma RefusedPhase(s: Local, k: Id) returns (acts: seq<Act>)
    requires Selects(s, k) && k !in s.refused && k !in s.table.key && s.punches[k].peer.info.addr in s.table.pending
    ensures acts == [Refuse(k), Resign(k), GiveUp(k)] && Legal(s, acts)
    ensures var p := s.punches[k].peer;
            Exec(s, acts) == s.(punches := s.punches[k := Punch(p, Over)], chans := FallBack(s, p),
                                refused := s.refused + {k})
  {
    var rest := ResignPhase(After(s, Refuse(k)), k);
    ExecFirst(s, Refuse(k), rest);
    acts := [Refuse(k)] + rest;
  }

  lemma CleanPhase(s: Local, k: Id) returns (acts: seq<Act>)
    requires Selects(s, k) && k in s.table.key && k !in s.table.result && k !in s.table.cleaned
    ensures acts == [Return(k, false), Cleanup(k)] && Legal(s, acts)
    ensures var t := s.table;
            Exec(s, acts) == s.(table := t.(pending := t.pending - {t.key[k]}, result := t.result[k := false],
                                            cleaned := t.cleaned + {k}))
  {
    var returned := After(s, Return(k, false));
    ExecFirst(returned, Cleanup(k), []);
    ExecFirst(s, Return(k, false), [Cleanup(k)]);
    assert [Cleanup(k)] + [] == [Cleanup(k)];
    acts := [Return(k, false)] + [Cleanup(k)];
  }

  /** An attempt runs out of time, cleans up, and its punch falls back to relay. */
  lemma TimedOutPhase(s: Local, k: Id) returns (acts: seq<Act>)
    requires Selects(s, k) && k in s.table.key && k !in s.table.result && k !in s.table.cleaned
    ensures acts == [Return(k, false), Cleanup(k), Resign(k), GiveUp(k)] && Legal(s, acts)
    ensures var p, t := s.punches[k].peer, s.table;
            Exec(s, acts) == s.(punches := s.punches[k := Punch(p, Over)], chans := FallBack(s, p),
              table := t.(pending := t.pending - {t.key[k]}, result := t.result[k := false],
                          cleaned := t.cleaned + {k}))
  {
    var clean := CleanPhase(s, k);
    var rest := ResignPhase(Exec(s, clean), k);
    ExecAppend(s, clean, rest);
    acts := clean + rest;
  }

  /** b leaves, c takes its number, b comes back under another one; the first punch still waits. */
  ghost predicate Reshuffled(s: Local, mine: Info, b: PeerInfo, c: PeerInfo, b': PeerInfo) {
    && s.record == View(Some(mine), map[c.id := c.info, b'.id := b'.info]) && s.due == multiset{}
    && Channels.Start(s.chans) && s.ends == map[] && s.refused == {} && s.errands == map[]
    && s.punches == map[0 := Punch(b, Selecting), 1 := Punch(c, Selecting), 2 := Punch(b', Selecting)]
    && s.table == Punches.PunchState(map[b.info.addr := 0, c.info.addr := 1], map[0 := b.info.addr, 1 := c.info.addr],
                                     map[], map[], {})
  }

  /** A peer's address arrives: it is noted and a punch towards it registered. */
  lemma NewcomerPhase(s: Local, k: Id, c: PeerInfo) returns (acts: seq<Act>)
    requires k !in s.punches && k !in s.table.key && k !in s.refused && c.info.addr !in s.table.pending
    ensures acts == [Note(c), Begin(k, c), Register(k)] && Legal(s, acts)
    ensures var t := s.table;
            Exec(s, acts) == s.(record := s.record.(peers := s.record.peers[c.id := c.info]), heard := s.heard + {c},
                                punches := s.punches[k := Punch(c, Selecting)],
                                table := t.(pending := t.pending[c.info.addr := k], key := t.key[k := c.info.addr]))
  {
    var noted := After(s, Note(c));
    var begun := After(noted, Begin(k, c));
    ExecFirst(begun, Register(k), []);
    ExecFirst(noted, Begin(k, c), [Register(k)]);
    ExecFirst(s, Note(c), [Begin(k, c)] + [Register(k)]);
    assert [Register(k)] + [] == [Register(k)];
    acts := [Note(c)] + ([Begin(k, c)] + [Register(k)]);
  }

  /** A leave notice arrives for a peer without a channel. */
  lemma GonePhase(s: Local, id: PeerId) returns (acts: seq<Act>)
    requires id !in s.chans.slots
    ensures acts == [Drop(id), DropChannel(id)] && Legal(s, acts)
    ensures Exec(s, acts) == s.(record := s.record.(peers := s.record.peers - {id}))
  {
    var dropped := After(s, Drop(id));
    assert s.chans.slots - {id} == s.chans.slots;
    ExecFirst(dropped, DropChannel(id), []);
    ExecFirst(s, Drop(id), [DropChannel(id)]);
    assert [DropChannel(id)] + [] == [DropChannel(id)];
    acts := [Drop(id)] + [DropChannel(id)];
  }

  lemma SwapPhase(s: Local, mine: Info, b: PeerInfo, c: PeerInfo) returns (acts: seq<Act>)
    requires s.record == View(Some(mine), map[b.id := b.info]) && b.id !in s.chans.slots
    requires 1 !in s.punches && 1 !in s.table.key && 1 !in s.refused && c.info.addr !in s.table.pending
    ensures acts == [Drop(b.id), DropChannel(b.id)] + [Note(c), Begin(1, c), Register(1)] && Legal(s, acts)
    ensures var t := s.table;
            Exec(s, acts) == s.(record := View(Some(mine), map[c.id := c.info]), heard := s.heard + {c},
                                punches := s.punches[1 := Punch(c, Selecting)],
                                table := t.(pending := t.pending[c.info.addr := 1], key := t.key[1 := c.info.addr]))
  {
    var gone := GonePhase(s, b.id);
    var s' := s.(record := View(Some(mine), map[]));
    assert s.record.peers - {b.id} == map[];
    assert Exec(s, gone) == s';
    var newcomer := NewcomerPhase(s', 1, c);
    assert s'.record.peers[c.id := c.info] == map[c.id := c.info];
    ExecAppend(s, gone, newcomer);
    acts := gone + newcomer;
  }

  /** What a is told: it is alone, b comes and goes, c comes, b comes back. */
  function ShuffleMessages(me: PeerId, mine: Info, b: PeerInfo, c: PeerInfo, b': PeerInfo): seq<Msg> {
    [RoomStatus([PeerInfo(me, mine)], 0, mine.vip), PeerAddress(b), PeerLeave(b.id), PeerAddress(c), PeerAddress(b')]
  }

  lemma ShuffleActs(me: PeerId, mine: Info, b: PeerInfo, c: PeerInfo, b': PeerInfo)
    ensures ActsOf(me, ShuffleMessages(me, mine, b, c, b'))
         == [Forget, NoteSelf(mine), Note(b), Drop(b.id), DropChannel(b.id), Note(c), Note(b')]
  {
    var self := PeerInfo(me, mine);
    var msgs := ShuffleMessages(me, mine, b, c, b');
    assert [self][..0] == [] && NoteAll(me, [self]) == NoteAll(me, []) + [NoteSelf(mine)];
    assert MessageActs(me, msgs[0]) == [Forget, NoteSelf(mine)];
    assert msgs[..4][..3] == msgs[..3] && msgs[..3][..2] == msgs[..2] && msgs[..2][..1] == msgs[..1];
    assert msgs[..1][..0] == [];
    assert ActsOf(me, msgs[..1]) == [Forget, NoteSelf(mine)];
    assert ActsOf(me, msgs[..2]) == [Forget, NoteSelf(mine), Note(b)];
    assert ActsOf(me, msgs[..3]) == [Forget, NoteSelf(mine), Note(b), Drop(b.id), DropChannel(b.id)];
    assert ActsOf(me, msgs[..4]) == [Forget, NoteSelf(mine), Note(b), Drop(b.id), DropChannel(b.id), Note(c)];
  }

  lemma ShufflePhase(start: Local, mine: Info, b: PeerInfo, c: PeerInfo, b': PeerInfo) returns (acts: seq<Act>)
    requires Start(start) && b.id != c.id && b.info.addr != c.info.addr && b'.id == b.id
    ensures acts == ShuffleRun(mine, b, c, b')
    ensures Legal(start, acts) && Reshuffled(Exec(start, acts), mine, b, c, b')
  {
    var join := JoinPhase(start, mine, b);
    var swap := SwapPhase(Exec(start, join), mine, b, c);
    ExecAppend(start, join, swap);
    var back := BackPhase(Exec(start, join + swap), mine, b, c, b');
    ExecAppend(start, join + swap, back);
    acts := join + swap + back;
  }

  lemma BackPhase(s: Local, mine: Info, b: PeerInfo, c: PeerInfo, b': PeerInfo) returns (acts: seq<Act>)
    requires b.id != c.id && b'.id == b.id && s.record == View(Some(mine), map[c.id := c.info]) && s.due == multiset{}
    requires Channels.Start(s.chans) && s.ends == map[] && s.refused == {} && s.errands == map[]
    requires s.punches == map[0 := Punch(b, Selecting), 1 := Punch(c, Selecting)]
    requires s.table == Punches.PunchState(map[b.info.addr := 0, c.info.addr := 1],
                                           map[0 := b.info.addr, 1 := c.info.addr], map[], map[], {})
    ensures acts == [Note(b'), Begin(2, b')] && Legal(s, acts) && Reshuffled(Exec(s, acts), mine, b, c, b')
  {
    ExecFirst(After(s, Note(b')), Begin(2, b'), []);
    ExecFirst(s, Note(b'), [Begin(2, b')]);
    assert [Begin(2, b')] + [] == [Begin(2, b')];
    acts := [Note(b')] + [Begin(2, b')];
  }

  function ShuffleRun(mine: Info, b: PeerInfo, c: PeerInfo, b': PeerInfo): seq<Act> {
    [Forget, NoteSelf(mine), Note(b), Begin(0, b), Register(0)]
    + ([Drop(b.id), DropChannel(b.id)] + [Note(c), Begin(1, c), Register(1)]) + [Note(b'), Begin(2, b')]
  }

  lemma ThreePieces(n1: seq<Act>, r1: seq<Act>, n2: seq<Act>, r2: seq<Act>, n3: seq<Act>, r3: seq<Act>)
    requires forall act :: act in n1 || act in n2 || act in n3 ==> Scripted(act)
    requires forall act :: act in r1 || act in r2 || act in r3 ==> !Scripted(act)
    ensures ScriptPart(n1 + r1 + (n2 + r2) + (n3 + r3)) == n1 + n2 + n3
  {
    ScriptMoreActs([], n1, r1);
    assert [] + (n1 + r1) == n1 + r1;
    ScriptMoreActs(n1 + r1, n2, r2);
    ScriptMoreActs(n1 + r1 + (n2 + r2), n3, r3);
  }

  /** Of the run, what the messages call for. */
  lemma ShuffleScript(mine: Info, b: PeerInfo, c: PeerInfo, b': PeerInfo)
    ensures ScriptPart(ShuffleRun(mine, b, c, b'))
         == [Forget, NoteSelf(mine), Note(b), Drop(b.id), DropChannel(b.id), Note(c), Note(b')]
  {
    var n1, r1 := [Forget, NoteSelf(mine), Note(b)], [Begin(0, b), Register(0)];
    var n2, r2 := [Drop(b.id), DropChannel(b.id), Note(c)], [Begin(1, c), Register(1)];
    var n3, r3 := [Note(b')], [Begin(2, b')];
    ThreePieces(n1, r1, n2, r2, n3, r3);
    assert ShuffleRun(mine, b, c, b') == n1 + r1 + (n2 + r2) + (n3 + r3);
  }

  /** The second punch to b is refused and falls back, then the first times out, then the one to c. */
  function FallBackRun(): seq<Act> {
    [Refuse(2), Resign(2), GiveUp(2)]
    + ([Return(0, false), Cleanup(0), Resign(0), GiveUp(0)] + [Return(1, false), Cleanup(1), Resign(1), GiveUp(1)])
  }

  lemma StaleScript(me: PeerId, mine: Info, b: PeerInfo, c: PeerInfo, b': PeerInfo)
    ensures ScriptPart(ShuffleRun(mine, b, c, b') + FallBackRun()) == ActsOf(me, ShuffleMessages(me, mine, b, c, b'))
  {
    ShuffleScript(mine, b, c, b');
    ShuffleActs(me, mine, b, c, b');
    var run := ShuffleRun(mine, b, c, b');
    ScriptMoreActs(run, [], FallBackRun());
    assert [] + FallBackRun() == FallBackRun();
  }

  /** The stale run. It does what the five messages call for: a is alone, b comes and goes, c comes and b
      comes back, each recorded peer's punch starting from what was recorded. While the first punch to b
      still waits, the second is refused its address and falls back to relay with b's new number; then
      the first times out and overwrites that with b's old one, which is c's by now if the server gave it
      away. Nothing is under way any more, and the record lists both numbers rightly. */
  lemma StaleFallBack(me: PeerId, start: Local, mine: Info, b: PeerInfo, c: PeerInfo, b': PeerInfo)
      returns (acts: seq<Act>)
    requires Start(start) && b'.id == b.id != c.id && b'.info.addr == b.info.addr != c.info.addr
    ensures Legal(start, acts) && ScriptPart(acts) == ActsOf(me, ShuffleMessages(me, mine, b, c, b'))
    ensures var end := Exec(start, acts);
            && NothingUnderWay(end)
            && end.record == View(Some(mine), map[c.id := c.info, b.id := b'.info])
            && b.id in end.chans.slots && end.chans.slots[b.id] == Channels.Relay(mine.vip, b.info.vip)
  {
    var shuffle := ShufflePhase(start, mine, b, c, b');
    var s := Exec(start, shuffle);
    var rest := FallBacks(s, mine, b, c, b');
    ExecAppend(start, shuffle, rest);
    StaleScript(me, mine, b, c, b');
    acts := shuffle + rest;
  }

  /** The second punch to b has fallen back with b's new number. */
  ghost predicate SecondOver(s: Local, mine: Info, b: PeerInfo, c: PeerInfo, b': PeerInfo) {
    && s.record == View(Some(mine), map[c.id := c.info, b'.id := b'.info]) && s.due == multiset{}
    && s.chans.slots == map[b'.id := Channels.Relay(mine.vip, b'.info.vip)] && s.errands == map[] && s.refused == {2}
    && s.punches == map[0 := Punch(b, Selecting), 1 := Punch(c, Selecting), 2 := Punch(b', Over)]
    && s.table == Punches.PunchState(map[b.info.addr := 0, c.info.addr := 1], map[0 := b.info.addr, 1 := c.info.addr],
                                     map[], map[], {})
  }

  lemma SecondPhase(s: Local, mine: Info, b: PeerInfo, c: PeerInfo, b': PeerInfo) returns (acts: seq<Act>)
    requires Reshuffled(s, mine, b, c, b') && b'.info.addr == b.info.addr
    ensures acts == [Refuse(2), Resign(2), GiveUp(2)] && Legal(s, acts) && SecondOver(Exec(s, acts), mine, b, c, b')
  {
    acts := RefusedPhase(s, 2);
  }

  /** The first one has timed out, and overwritten it with b's old number. */
  ghost predicate FirstOver(s: Local, mine: Info, b: PeerInfo, c: PeerInfo, b': PeerInfo) {
    && s.record == View(Some(mine), map[c.id := c.info, b'.id := b'.info]) && s.due == multiset{}
    && s.chans.slots == map[b.id := Channels.Relay(mine.vip, b.info.vip)] && s.errands == map[] && s.refused == {2}
    && s.punches == map[0 := Punch(b, Over), 1 := Punch(c, Selecting), 2 := Punch(b', Over)]
    && s.table == Punches.PunchState(map[c.info.addr := 1], map[0 := b.info.addr, 1 := c.info.addr],
                                     map[], map[0 := false], {0})
  }

  lemma FirstPhase(s: Local, mine: Info, b: PeerInfo, c: PeerInfo, b': PeerInfo) returns (acts: seq<Act>)
    requires SecondOver(s, mine, b, c, b') && b'.id == b.id && b.info.addr != c.info.addr
    ensures acts == [Return(0, false), Cleanup(0), Resign(0), GiveUp(0)]
    ensures Legal(s, acts) && FirstOver(Exec(s, acts), mine, b, c, b')
  {
    assert s.table.pending - {b.info.addr} == map[c.info.addr := 1];
    assert s.punches[0 := Punch(b, Over)] == map[0 := Punch(b, Over), 1 := Punch(c, Selecting), 2 := Punch(b', Over)];
    var relay := Channels.Relay(mine.vip, b.info.vip);
    assert s.chans.slots[b.id := relay] == map[b.id := relay];
    acts := TimedOutPhase(s, 0);
  }

  lemma LastPhase(s: Local, mine: Info, b: PeerInfo, c: PeerInfo, b': PeerInfo) returns (acts: seq<Act>)
    requires FirstOver(s, mine, b, c, b') && b.id != c.id
    ensures acts == [Return(1, false), Cleanup(1), Resign(1), GiveUp(1)]
    ensures Legal(s, acts) && NothingUnderWay(Exec(s, acts)) && Exec(s, acts).record == s.record
    ensures var slots := Exec(s, acts).chans.slots;
            b.id in slots && slots[b.id] == Channels.Relay(mine.vip, b.info.vip)
  {
    acts := TimedOutPhase(s, 1);
  }

  lemma FallBacks(s: Local, mine: Info, b: PeerInfo, c: PeerInfo, b': PeerInfo) returns (acts: seq<Act>)
    requires Reshuffled(s, mine, b, c, b') && b'.id == b.id != c.id && b'.info.addr == b.info.addr != c.info.addr
    ensures acts == FallBackRun()
    ensures Legal(s, acts) && NothingUnderWay(Exec(s, acts)) && Exec(s, acts).record == s.record
    ensures var slots := Exec(s, acts).chans.slots;
            b.id in slots && slots[b.id] == Channels.Relay(mine.vip, b.info.vip)
  {
    var second := SecondPhase(s, mine, b, c, b');
    var s2 := Exec(s, second);
    var first := FirstPhase(s2, mine, b, c, b');
    var s1 := Exec(s2, first);
    var last := LastPhase(s1, mine, b, c, b');
    ExecAppend(s2, first, last);
    ExecAppend(s, second, first + last);
    acts := second + (first + last);
  }
}
