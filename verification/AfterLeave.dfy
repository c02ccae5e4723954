/** What punches still do once the room was left (client/core/client.go): which of them can yet install a
    direct channel, exactly, those not yet begun included; a run in which one does without any reply, and
    one in which no punch had begun when the room was left. */
module AfterLeave {
  import opened Vip
  import opened Options
  import opened Membership
  import opened ClientRuns
  import opened Following
  import Channels
  import Punches

  /** The punch may still install a direct channel: it holds one, or its attempt has yet to begin, or
      has succeeded, or is registered and either closed already or within reach of a reply. */
  ghost predicate Live(s: Local, k: Id) {
    && k in s.punches
    && match s.punches[k].stage
       case Holding(_) => true
       case Selecting =>
         && k !in s.refused
         && (k in s.table.result ==> s.table.result[k])
         && (Punches.Waiting(s.table, k) ==> InTable(s.table, k))
       case _ => false
  }

  ghost predicate InTable(t: Punches.PunchState<Id>, k: Id) {
    k in t.key && t.key[k] in t.pending && t.pending[t.key[k]] == k
  }

  /** Nothing of a next join arrives: nobody is recorded. A punch due from before may yet begin. */
  predicate Quiet(act: Act) {
    !act.Note? && !act.NoteSelf?
  }

  predicate AllQuiet(acts: seq<Act>) {
    forall i :: 0 <= i < |acts| ==> Quiet(acts[i])
  }

  // ---------------------------------------------------------------- only live punches install

  /** A step of the table never revives an attempt that has failed or lost its entry. */
  lemma TableNeverRevives(t: Punches.PunchState<Id>, step: Punches.Step<Id>, k: Id)
    requires Punches.Inv(t) && Punches.Enabled(t, step) && k in t.key
    ensures var t' := Punches.After(t, step);
            && (k in t.result ==> k in t'.result && t'.result[k] == t.result[k])
            && (Punches.Waiting(t, k) && !InTable(t, k) ==>
                  (Punches.Waiting(t', k) && !InTable(t', k)) || (k in t'.result && !t'.result[k]))
  {
    if step.LeaveRoom? && k in t.pending.Values {
      var a :| a in t.pending && t.pending[a] == k;
    }
  }

  /** Registering is for punches that were never refused, under their own address. */
  lemma OnlyLiveAct(s: Local, act: Act, k: Id)
    requires Sound(s) && Enabled(s, act) && k in s.punches && Live(After(s, act), k)
    ensures Live(s, k)
  {
    var table := TableStep(s, act);
    if table.Some? && k in s.table.key {
      TableNeverRevives(s.table, table.value, k);
    }
  }

  /** Whatever happens, a next join included, no punch is revived: live later, it is live now. */
  lemma {:induction false} OnlyLive(s: Local, acts: seq<Act>, k: Id)
    requires Sound(s) && Legal(s, acts) && k in s.punches && Live(Exec(s, acts), k)
    ensures Live(s, k)
    decreases |acts|
  {
    if |acts| > 0 {
      ActKeepsSound(s, acts[0]);
      OnlyLive(After(s, acts[0]), acts[1..], k);
      OnlyLiveAct(s, acts[0], k);
    }
  }

  /** A punch for the peer is due: recorded, and yet to begin. */
  ghost predicate DueFor(s: Local, id: PeerId) {
    exists p :: p in s.due && p.id == id
  }

  ghost predicate LiveFor(s: Local, k: Id, id: PeerId) {
    Live(s, k) && s.punches[k].peer.id == id
  }

  /** The punch k may yet install a direct channel to the peer: it is one and live, or still to be one. */
  ghost predicate MayInstall(s: Local, k: Id, id: PeerId) {
    if k in s.punches then LiveFor(s, k, id) else DueFor(s, id)
  }

  lemma QuietKeepsDue(s: Local, act: Act)
    requires Enabled(s, act) && Quiet(act)
    ensures After(s, act).due <= s.due && s.punches.Keys <= After(s, act).punches.Keys
    ensures forall k :: k in After(s, act).punches && k !in s.punches ==>
              act.Begin? && act.peer in s.due && After(s, act).punches[k].peer == act.peer
  {
  }

  /** What may install later may so now. */
  lemma MayBefore(s: Local, act: Act, k: Id, id: PeerId)
    requires Sound(s) && Enabled(s, act) && Quiet(act) && MayInstall(After(s, act), k, id)
    ensures MayInstall(s, k, id)
  {
    QuietKeepsDue(s, act);
    if k in s.punches {
      OnlyLiveAct(s, act, k);
      PeersAfter(s, act, k);
    }
  }

  lemma {:induction false} OnlyThese(s: Local, acts: seq<Act>, k: Id, id: PeerId)
    requires Sound(s) && Legal(s, acts) && AllQuiet(acts) && MayInstall(Exec(s, acts), k, id)
    ensures MayInstall(s, k, id)
    decreases |acts|
  {
    if |acts| > 0 {
      ActKeepsSound(s, acts[0]);
      OnlyThese(After(s, acts[0]), acts[1..], k, id);
      assert Quiet(acts[0]);
      MayBefore(s, acts[0], k, id);
    }
  }

  // ---------------------------------------------------------------- and every live punch can

  /** How far a live punch is from installing. */
  ghost function Distance(s: Local, k: Id): nat
    requires Live(s, k)
  {
    if Holds(s, k) then 1
    else if k in s.table.result then (if k in s.table.cleaned then 2 else 3)
    else if k in s.table.key then (if k in s.table.closed then 4 else 5)
    else if s.punches[k].peer.info.addr !in s.table.pending then 6
    else 7
  }

  lemma {:induction false} Above(used: set<Id>) returns (t: Id)
    ensures forall u :: u in used ==> u < t
    decreases |used|
  {
    if used == {} {
      t := 0;
    } else {
      var u :| u in used;
      var rest := Above(used - {u});
      assert forall x :: x in used ==> x == u || x in used - {u};
      t := if u < rest then rest else u + 1;
    }
  }

  /** Nearer to installing by this act. */
  ghost predicate Nearer(s: Local, k: Id, act: Act)
    requires Live(s, k)
  {
    && Enabled(s, act) && Quiet(act) && !Scripted(act)
    && Live(After(s, act), k) && Distance(After(s, act), k) < Distance(s, k)
  }

  /** An act of an attempt, or the reply it waits for. */
  predicate OfAttempt(act: Act) {
    act.Register? || act.Reply? || act.Return? || act.Cleanup?
  }

  lemma SucceededNearer(s: Local, k: Id) returns (act: Act)
    requires Sound(s) && Live(s, k) && Selects(s, k) && k in s.table.result
    ensures Nearer(s, k, act) && (OfAttempt(act) || (act.Launch? && act.k == k))
  {
    if k in s.table.cleaned {
      var t := Above(s.chans.created);
      act := Launch(k, t);
    } else {
      act := Cleanup(k);
    }
  }

  lemma ClosedNearer(s: Local, k: Id)
    requires Sound(s) && Live(s, k) && Selects(s, k) && k in s.table.key && k !in s.table.result
    requires k in s.table.closed
    ensures Nearer(s, k, Return(k, true))
  {
  }

  lemma PendingNearer(s: Local, k: Id)
    requires Sound(s) && Live(s, k) && Selects(s, k) && k in s.table.key && k !in s.table.result
    requires k !in s.table.closed
    ensures Nearer(s, k, Reply(s.punches[k].peer.info.addr))
  {
  }

  lemma UnregisteredNearer(s: Local, k: Id) returns (act: Act)
    requires Sound(s) && Live(s, k) && Selects(s, k) && k !in s.table.key
    ensures Nearer(s, k, act) && OfAttempt(act)
  {
    var addr := s.punches[k].peer.info.addr;
    if addr in s.table.pending {
      act := Reply(addr);
    } else {
      act := Register(k);
    }
  }

  lemma SomeNearer(s: Local, k: Id) returns (act: Act)
    requires Sound(s) && Live(s, k) && !Holds(s, k)
    ensures Nearer(s, k, act) && (OfAttempt(act) || (act.Launch? && act.k == k))
  {
    if k in s.table.result {
      act := SucceededNearer(s, k);
    } else if k !in s.table.key {
      act := UnregisteredNearer(s, k);
    } else if k in s.table.closed {
      act := Return(k, true);
      ClosedNearer(s, k);
    } else {
      act := Reply(s.punches[k].peer.info.addr);
      PendingNearer(s, k);
    }
  }

  /** Quiet acts, the last of which installs the channel of punch k, which is for the peer. */
  ghost predicate Installs(s: Local, acts: seq<Act>, k: Id, id: PeerId) {
    && |acts| > 0 && acts[|acts| - 1] == Install(k) && AllQuiet(acts)
    && Legal(s, acts) && PunchFor(s, acts[..|acts| - 1], k, id)
  }

  ghost predicate PunchFor(s: Local, acts: seq<Act>, k: Id, id: PeerId) {
    && Legal(s, acts)
    && k in Exec(s, acts).punches && Exec(s, acts).punches[k].peer.id == id
  }

  lemma InstallsNow(s: Local, k: Id)
    requires Sound(s) && Holds(s, k)
    ensures Installs(s, [Install(k)], k, s.punches[k].peer.id)
  {
    assert [Install(k)][..0] == [] && [Install(k)][1..] == [];
    assert HolderTied(s, s.punches[k]);
  }

  lemma InstallsLater(s: Local, act: Act, acts: seq<Act>, k: Id, id: PeerId)
    requires Enabled(s, act) && Quiet(act) && Installs(After(s, act), acts, k, id)
    ensures Installs(s, [act] + acts, k, id)
  {
    var n := |acts| - 1;
    ExecFirst(s, act, acts);
    ForLater(s, act, acts[..n], k, id);
    assert ([act] + acts)[..n + 1] == [act] + acts[..n];
    QuietLater(act, acts);
  }

  lemma ForLater(s: Local, act: Act, acts: seq<Act>, k: Id, id: PeerId)
    requires Enabled(s, act) && PunchFor(After(s, act), acts, k, id)
    ensures PunchFor(s, [act] + acts, k, id)
  {
    ExecFirst(s, act, acts);
  }

  lemma QuietLater(act: Act, acts: seq<Act>)
    requires Quiet(act) && AllQuiet(acts)
    ensures AllQuiet([act] + acts)
  {
  }

  lemma {:induction false} LiveInstalls(s: Local, k: Id) returns (acts: seq<Act>)
    requires Sound(s) && Live(s, k)
    ensures Installs(s, acts, k, s.punches[k].peer.id)
    decreases Distance(s, k)
  {
    if Holds(s, k) {
      acts := [Install(k)];
      InstallsNow(s, k);
    } else {
      var act := SomeNearer(s, k);
      ActKeepsSound(s, act);
      PeersAfter(s, act, k);
      var rest := LiveInstalls(After(s, act), k);
      InstallsLater(s, act, rest, k, s.punches[k].peer.id);
      acts := [act] + rest;
    }
  }

  lemma BegunIsLive(s: Local, k: Id, p: PeerInfo)
    requires Sound(s) && p in s.due && k !in s.punches
    ensures Enabled(s, Begin(k, p)) && LiveFor(After(s, Begin(k, p)), k, p.id)
  {
  }

  lemma MayInstalls(s: Local, k: Id, id: PeerId) returns (acts: seq<Act>)
    requires Sound(s) && MayInstall(s, k, id)
    ensures Installs(s, acts, k, id)
  {
    if k in s.punches {
      acts := LiveInstalls(s, k);
    } else {
      var p :| p in s.due && p.id == id;
      BegunIsLive(s, k, p);
      ActKeepsSound(s, Begin(k, p));
      var rest := LiveInstalls(After(s, Begin(k, p)), k);
      InstallsLater(s, Begin(k, p), rest, k, id);
      acts := [Begin(k, p)] + rest;
    }
  }

  lemma HoldsBefore(s: Local, init: seq<Act>, k: Id)
    requires Legal(s, init + [Install(k)])
    ensures Legal(s, init) && Holds(Exec(s, init), k)
  {
    ExecAppend(s, init, [Install(k)]);
  }

  lemma InstallsNeedsMay(s: Local, acts: seq<Act>, k: Id, id: PeerId)
    requires Sound(s) && Installs(s, acts, k, id)
    ensures MayInstall(s, k, id)
  {
    var init := acts[..|acts| - 1];
    assert acts == init + [Install(k)];
    HoldsBefore(s, init, k);
    OnlyThese(s, init, k, id);
  }

  /** From any state that a run leads to, and before anything of a next join arrives: exactly a live punch
      for the peer can install a direct channel to it, or a punch still to begin while one is due for it. */
  lemma InstallsIff(s: Local, k: Id, id: PeerId)
    requires Sound(s)
    ensures MayInstall(s, k, id) <==> exists acts :: Installs(s, acts, k, id)
  {
    if MayInstall(s, k, id) {
      var acts := MayInstalls(s, k, id);
    }
    forall acts | Installs(s, acts, k, id) ensures MayInstall(s, k, id) {
      InstallsNeedsMay(s, acts, k, id);
    }
  }

  /** Some live punch is for the peer, or one is due. */
  ghost predicate SomeMay(s: Local, id: PeerId) {
    (exists k :: LiveFor(s, k, id)) || DueFor(s, id)
  }

  lemma SomeInstallsIff(s: Local, id: PeerId)
    requires Sound(s)
    ensures SomeMay(s, id) <==> exists k, acts :: Installs(s, acts, k, id)
  {
    if DueFor(s, id) {
      var k := Above(s.punches.Keys);
      var acts := MayInstalls(s, k, id);
    } else if k :| LiveFor(s, k, id) {
      var acts := MayInstalls(s, k, id);
    }
    forall k, acts | Installs(s, acts, k, id) ensures SomeMay(s, id) {
      InstallsNeedsMay(s, acts, k, id);
    }
  }

  /** LeaveRoom's section on the channels stops no punch. */
  lemma LeaveStopsNone(s: Local, k: Id, id: PeerId)
    ensures Enabled(s, DropChannels) && After(s, DropChannels).due == s.due
    ensures LiveFor(After(s, DropChannels), k, id) <==> LiveFor(s, k, id)
    ensures MayInstall(After(s, DropChannels), k, id) <==> MayInstall(s, k, id)
  {
  }

  lemma LeaveKeepsSome(s: Local, id: PeerId)
    ensures Enabled(s, DropChannels) && (SomeMay(After(s, DropChannels), id) <==> SomeMay(s, id))
  {
    var left := After(s, DropChannels);
    if k :| LiveFor(s, k, id) {
      LeaveStopsNone(s, k, id);
    } else if k :| LiveFor(left, k, id) {
      LeaveStopsNone(s, k, id);
    }
  }

  /** Over whole runs: after LeaveRoom has emptied the channel map, and before anything of the next join
      arrives, some punch installs a direct channel to a peer in some continuation exactly if at that moment
      a live punch is for it or one is due for it; and a given punch does exactly if it is that one, or,
      not yet begun, one is due. */
  lemma InstalledAfterLeaveIff(start: Local, before: seq<Act>, k: Id, id: PeerId)
    requires Start(start) && Legal(start, before)
    ensures Enabled(Exec(start, before), DropChannels)
    ensures var s := Exec(start, before); var left := After(s, DropChannels);
            && left.chans.slots == map[]
            && (SomeMay(s, id) <==> exists j, acts :: Installs(left, acts, j, id))
            && (MayInstall(s, k, id) <==> exists acts :: Installs(left, acts, k, id))
  {
    var s := Exec(start, before);
    StartSound(start);
    ExecKeepsSound(start, before);
    ActKeepsSound(s, DropChannels);
    LeaveKeepsSome(s, id);
    LeaveStopsNone(s, k, id);
    SomeInstallsIff(After(s, DropChannels), id);
    InstallsIff(After(s, DropChannels), k, id);
  }

  /** The act puts a direct channel to the peer into the map. */
  ghost predicate Puts(s: Local, act: Act, id: PeerId) {
    || (act.Install? && Holds(s, act.k) && s.punches[act.k].peer.id == id)
    || (act.Accept? && act.e in s.errands && s.errands[act.e].Matched? && s.errands[act.e].id == id)
  }

  lemma PutsFirst(s: Local, act: Act, id: PeerId)
    requires Sound(s) && Enabled(s, act)
    requires !Channels.HasP2P(s.chans, id) && Channels.HasP2P(After(s, act).chans, id)
    ensures Puts(s, act, id) && (act.Install? ==> LiveFor(s, act.k, id))
  {
  }

  /** And a direct channel in the map then has one of three causes: an install by a punch that was live, or
      by one that was due and began later, or the answer to a punch of the peer's. */
  lemma {:induction false} DirectHasCause(s: Local, acts: seq<Act>, id: PeerId) returns (n: nat)
    requires Sound(s) && Legal(s, acts) && AllQuiet(acts)
    requires !Channels.HasP2P(s.chans, id) && Channels.HasP2P(Exec(s, acts).chans, id)
    ensures n < |acts| && Legal(s, acts[..n]) && Puts(Exec(s, acts[..n]), acts[n], id)
    ensures acts[n].Install? ==> LiveFor(s, acts[n].k, id) || (acts[n].k !in s.punches && DueFor(s, id))
    decreases |acts|
  {
    var s' := After(s, acts[0]);
    ActKeepsSound(s, acts[0]);
    if Channels.HasP2P(s'.chans, id) {
      n := 0;
      PutsFirst(s, acts[0], id);
      assert acts[..0] == [];
    } else {
      assert AllQuiet(acts[1..]);
      var m := DirectHasCause(s', acts[1..], id);
      n := m + 1;
      PutsLater(s, acts, m, id);
      if acts[n].Install? {
        MayBefore(s, acts[0], acts[n].k, id);
      }
    }
  }

  lemma PutsLater(s: Local, acts: seq<Act>, m: nat, id: PeerId)
    requires m + 1 < |acts| && Enabled(s, acts[0]) && Legal(After(s, acts[0]), acts[1..][..m])
    requires Puts(Exec(After(s, acts[0]), acts[1..][..m]), acts[m + 1], id)
    ensures Legal(s, acts[..m + 1]) && Puts(Exec(s, acts[..m + 1]), acts[m + 1], id)
  {
    ExecFirst(s, acts[0], acts[1..][..m]);
    assert acts[..m + 1] == [acts[0]] + acts[1..][..m];
  }

  // ---------------------------------------------------------------- a run that does it

  /** LeaveRoom has closed its notification, and not yet touched the channels. */
  ghost predicate Closed(s: Local, p: PeerInfo) {
    && Channels.Start(s.chans) && s.ends == map[] && s.refused == {} && s.errands == map[]
    && s.punches == map[0 := Punch(p, Selecting)]
    && s.table == Punches.PunchState(map[], map[0 := p.info.addr], map[0 := Punches.ByLeave], map[], {})
  }

  lemma ClosePhase(s: Local, mine: Info, p: PeerInfo)
    requires Punching(s, mine, p)
    ensures Enabled(s, CloseWaiting) && Closed(After(s, CloseWaiting), p)
  {
    assert s.table.pending[p.info.addr] == 0;
    assert s.table.pending.Values == {0};
    assert After(s, CloseWaiting).table.closed == map[0 := Punches.ByLeave];
  }

  lemma LeavePhase(s: Local, p: PeerInfo)
    requires Closed(s, p)
    ensures Live(s, 0) && s.chans.launched == map[]
    ensures Enabled(s, DropChannels) && After(s, DropChannels) == s && After(s, DropChannels).chans.open == {}
    ensures Enabled(s, Forget) && Closed(After(s, Forget), p) && After(s, Forget).record == EMPTY_VIEW
  {
    assert Channels.Installed(s.chans) == {};
  }

  /** The attempt reports success: its notification is closed. */
  lemma SuccessPhase(s: Local, p: PeerInfo) returns (acts: seq<Act>)
    requires Closed(s, p)
    ensures acts == [Return(0, true), Cleanup(0)] && Legal(s, acts)
    ensures var t := s.table.(result := map[0 := true], cleaned := {0}); Exec(s, acts) == s.(table := t)
  {
    ExecFirst(After(s, Return(0, true)), Cleanup(0), []);
    ExecFirst(s, Return(0, true), [Cleanup(0)]);
    assert [Cleanup(0)] + [] == [Cleanup(0)];
    acts := [Return(0, true)] + [Cleanup(0)];
  }

  ghost predicate ReadyToLaunch(s: Local, p: PeerInfo) {
    && s.record == EMPTY_VIEW && Channels.Start(s.chans) && s.ends == map[]
    && s.punches == map[0 := Punch(p, Selecting)] && Succeeded(s, 0)
  }

  lemma InstallPhase(s: Local, p: PeerInfo) returns (acts: seq<Act>)
    requires ReadyToLaunch(s, p)
    ensures acts == [Launch(0, 0), Install(0)] && Legal(s, acts)
    ensures var done := Exec(s, acts);
            && done.record == EMPTY_VIEW && done.table == s.table
            && done.chans.slots == map[p.id := Channels.P2P(0)] && done.chans.open == {0}
            && done.ends == map[0 := Ends(p.info.addr, 0, p.info.vip)]
  {
    ExecFirst(After(s, Launch(0, 0)), Install(0), []);
    ExecFirst(s, Launch(0, 0), [Install(0)]);
    assert [Install(0)] + [] == [Install(0)];
    acts := [Launch(0, 0)] + [Install(0)];
  }

  /** A direct channel to p is in the map and open, under number 0, though nobody is on record. */
  ghost predicate Leaked(s: Local, p: PeerInfo) {
    && s.record == EMPTY_VIEW
    && s.table.result == map[0 := true] && s.table.closed == map[0 := Punches.ByLeave]
    && s.chans.slots == map[p.id := Channels.P2P(0)] && s.chans.open == {0}
    && s.ends == map[0 := Ends(p.info.addr, 0, p.info.vip)]
  }

  lemma RestPhase(s: Local, p: PeerInfo) returns (acts: seq<Act>)
    requires Closed(s, p)
    ensures acts == [Forget, Return(0, true), Cleanup(0), Launch(0, 0), Install(0)]
    ensures Legal(s, acts) && Leaked(Exec(s, acts), p)
  {
    LeavePhase(s, p);
    var left := After(s, Forget);
    var success := SuccessPhase(left, p);
    var install := InstallPhase(Exec(left, success), p);
    ExecAppend(left, success, install);
    ExecFirst(s, Forget, success + install);
    acts := [Forget] + (success + install);
  }

  lemma BeforePhase(start: Local, mine: Info, p: PeerInfo) returns (acts: seq<Act>)
    requires Start(start)
    ensures acts == [Forget, NoteSelf(mine), Note(p), Begin(0, p), Register(0), CloseWaiting]
    ensures Legal(start, acts) && Closed(Exec(start, acts), p)
  {
    var join := JoinPhase(start, mine, p);
    ClosePhase(Exec(start, join), mine, p);
    ExecLast(start, join, CloseWaiting);
    acts := join + [CloseWaiting];
  }

  lemma LeftPhase(s: Local, p: PeerInfo) returns (left: Local, acts: seq<Act>)
    requires Closed(s, p)
    ensures Enabled(s, DropChannels) && left == After(s, DropChannels)
    ensures s.chans.launched == map[] && Live(s, 0) && left.chans.open == {}
    ensures acts == [Forget, Return(0, true), Cleanup(0), Launch(0, 0), Install(0)]
    ensures Legal(left, acts) && Leaked(Exec(left, acts), p)
  {
    LeavePhase(s, p);
    left := s;
    acts := RestPhase(s, p);
  }

  predicate NoReplies(acts: seq<Act>) {
    forall i :: 0 <= i < |acts| ==> !acts[i].Reply?
  }

  /** Its acts are those of a snapshot listing oneself and p, and then LeaveRoom's. */
  lemma ScriptBefore(me: PeerId, mine: Info, p: PeerInfo, before: seq<Act>)
    requires p.id != me
    requires before == [Forget, NoteSelf(mine), Note(p), Begin(0, p), Register(0), CloseWaiting]
    ensures ScriptPart(before) == MessageActs(me, RoomStatus([PeerInfo(me, mine), p], 0, mine.vip)) + [CloseWaiting]
    ensures NoReplies(before)
  {
    var notes, begin, last := [Forget, NoteSelf(mine), Note(p)], [Begin(0, p), Register(0)], [CloseWaiting];
    ScriptAround(notes, begin, last);
    assert notes + begin + last == before;
    SnapshotOfTwo(me, mine, p);
  }

  lemma ScriptAround(notes: seq<Act>, rest: seq<Act>, last: seq<Act>)
    requires (forall act :: act in notes ==> Scripted(act)) && (forall act :: act in rest ==> !Scripted(act))
    requires forall act :: act in last ==> Scripted(act)
    ensures ScriptPart(notes + rest + last) == notes + last
  {
    ScriptMoreActs([], notes, rest);
    assert [] + (notes + rest) == notes + rest;
    ScriptMoreActs(notes + rest, last, []);
    assert last + [] == last;
  }

  lemma ScriptAfterwards(acts: seq<Act>)
    requires acts == [Forget, Return(0, true), Cleanup(0), Launch(0, 0), Install(0)]
    ensures ScriptPart(acts) == [Forget] && NoReplies(acts) && AllQuiet(acts)
  {
    ScriptAround([Forget], acts[1..], []);
    assert [Forget] + acts[1..] + [] == acts;
  }

  lemma SnapshotOfTwo(me: PeerId, mine: Info, p: PeerInfo)
    requires p.id != me
    ensures MessageActs(me, RoomStatus([PeerInfo(me, mine), p], 0, mine.vip)) == [Forget, NoteSelf(mine), Note(p)]
  {
    var self := PeerInfo(me, mine);
    assert [self, p][..1] == [self] && [self][..0] == [];
    assert NoteAll(me, [self]) == [NoteSelf(mine)];
  }

  /** It happens without any reply, and with no more than a snapshot received before: a punch is waiting
      when the room is left, LeaveRoom closes its notification, the attempt reports success, and a direct
      channel to a peer of the left room stays open, though none was being installed when LeaveRoom closed
      all others. */
  lemma LeftBehind(me: PeerId, start: Local, mine: Info, p: PeerInfo)
      returns (before: seq<Act>, s: Local, left: Local, acts: seq<Act>)
    requires Start(start) && p.id != me
    ensures Legal(start, before) && s == Exec(start, before)
    ensures ScriptPart(before) == MessageActs(me, RoomStatus([PeerInfo(me, mine), p], 0, mine.vip)) + [CloseWaiting]
    ensures Enabled(s, DropChannels) && left == After(s, DropChannels) && ScriptPart(acts) == [Forget]
    ensures NoReplies(before) && NoReplies(acts)
    ensures s.chans.launched == map[] && Live(s, 0)
    ensures acts == [Forget, Return(0, true), Cleanup(0), Launch(0, 0), Install(0)] && AllQuiet(acts)
    ensures left.chans.open == {} && Legal(left, acts) && Leaked(Exec(left, acts), p)
  {
    before := BeforePhase(start, mine, p);
    s := Exec(start, before);
    left, acts := LeftPhase(s, p);
    ScriptBefore(me, mine, p, before);
    ScriptAfterwards(acts);
  }

  // ---------------------------------------------------------------- a punch begun afterwards

  /** Oneself and p are recorded, the punch due, and LeaveRoom has gone over the table. */
  lemma ListClosePhase(start: Local, mine: Info, p: PeerInfo) returns (acts: seq<Act>)
    requires Start(start)
    ensures acts == [Forget, NoteSelf(mine), Note(p)] + [CloseWaiting] && Legal(start, acts)
    ensures Exec(start, acts) == start.(record := View(Some(mine), map[p.id := p.info]), heard := {p},
                                        own := {mine.vip}, due := multiset{p})
  {
    var list := ListPhase(start, mine, p);
    var s := Exec(start, list);
    assert After(s, CloseWaiting).table.pending == s.table.pending;
    assert s.table.pending.Values == {};
    assert After(s, CloseWaiting) == s;
    ExecLast(start, list, CloseWaiting);
    acts := list + [CloseWaiting];
  }

  /** Nor need a punch have begun: a snapshot is recorded, the room is left before its punches begin, and
      one of them begins then and installs a direct channel to a peer of the left room. */
  lemma BegunAfterLeave(me: PeerId, start: Local, mine: Info, p: PeerInfo)
      returns (before: seq<Act>, s: Local, left: Local, acts: seq<Act>)
    requires Start(start) && p.id != me
    ensures Legal(start, before) && s == Exec(start, before) && s.punches == map[] && s.due == multiset{p}
    ensures before == MessageActs(me, RoomStatus([PeerInfo(me, mine), p], 0, mine.vip)) + [CloseWaiting]
    ensures Enabled(s, DropChannels) && left == After(s, DropChannels)
    ensures |acts| > 1 && acts[0] == Forget && acts[1] == Begin(0, p) && Installs(left, acts, 0, p.id)
  {
    before := ListClosePhase(start, mine, p);
    SnapshotOfTwo(me, mine, p);
    s := Exec(start, before);
    StartSound(start);
    ExecKeepsSound(start, before);
    ActKeepsSound(s, DropChannels);
    left := After(s, DropChannels);
    ActKeepsSound(left, Forget);
    var gone := After(left, Forget);
    BegunIsLive(gone, 0, p);
    ActKeepsSound(gone, Begin(0, p));
    var rest := LiveInstalls(After(gone, Begin(0, p)), 0);
    InstallsLater(gone, Begin(0, p), rest, 0, p.id);
    InstallsLater(left, Forget, [Begin(0, p)] + rest, 0, p.id);
    acts := [Forget] + ([Begin(0, p)] + rest);
  }
}
