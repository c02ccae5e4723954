/** When a channel's stored numbers can become stale although nothing more is recorded: exactly the punches
    and errands under way that carry numbers other than the record's, and can still write them. */
module Staleness {
  import opened Vip
  import opened Options
  import opened Membership
  import opened ClientRuns
  import opened Following
  import opened StoredNumbers
  import opened AfterLeave
  import Channels
  import Punches

  // Another number than the one on record, if there is one.
  predicate WrongDst(v: View, id: PeerId, dst: nat) {
    id in v.peers && dst != v.peers[id].vip
  }

  predicate WrongSrc(v: View, src: nat) {
    v.self.Some? && src != v.self.value.vip
  }

  /** A punch that will write a number no longer on record: it waits for its attempt and can yet succeed, or
      fall back for want of a direct channel; or it is about to fall back; or about to install. */
  ghost predicate PunchCarries(s: Local, k: Id) {
    && k in s.punches
    && var p := s.punches[k];
    && var id := p.peer.id;
    && match p.stage
       case Selecting => WrongDst(s.record, id, p.peer.info.vip) && (Live(s, k) || !Channels.HasP2P(s.chans, id))
       case Resigning(src) => !Channels.HasP2P(s.chans, id) && !Agrees(s.record, id, Stored(src, p.peer.info.vip))
       case Holding(t) => !Agrees(s.record, id, StoredIn(s, Channels.P2P(t)))
       case Over => false
  }

  /** A send that will make a relay channel, or the answer to a punch that will make a direct one. */
  ghost predicate ErrandCarries(s: Local, e: Id) {
    && e in s.errands
    && match s.errands[e]
       case Sending(id, dst) => id !in s.chans.slots && WrongDst(s.record, id, dst)
       case Equipped(id, dst, src) => id !in s.chans.slots && !Agrees(s.record, id, Stored(src, dst))
       case Answering(remote, src) => WrongSrc(s.record, src) && exists id :: Answerable(s, remote, id)
       case Matched(_, src, id, dst) => !Channels.HasP2P(s.chans, id) && !Agrees(s.record, id, Stored(src, dst))
  }

  ghost predicate Answerable(s: Local, remote: Endpoint, id: PeerId) {
    id in s.record.peers && s.record.peers[id].addr == remote && !Channels.HasP2P(s.chans, id)
  }

  /** A recorded peer whose punch has yet to begin. */
  ghost predicate DueCarries(s: Local, p: PeerInfo) {
    p in s.due && WrongDst(s.record, p.id, p.info.vip)
  }

  ghost predicate Carries(s: Local) {
    || (exists k :: PunchCarries(s, k))
    || (exists e :: ErrandCarries(s, e))
    || (exists p :: DueCarries(s, p))
  }

  predicate Internal(acts: seq<Act>) {
    forall i :: 0 <= i < |acts| ==> !Scripted(acts[i])
  }

  /** With no message and no leaving, some channel may come to have stale numbers. */
  ghost predicate SoonStale(s: Local) {
    exists acts :: StaleAfter(s, acts)
  }

  ghost predicate StaleAfter(s: Local, acts: seq<Act>) {
    Legal(s, acts) && Internal(acts) && !Current(Exec(s, acts))
  }

  // ---------------------------------------------------------------- whatever carries can write

  lemma GoesOn(s: Local, act: Act)
    requires Enabled(s, act) && !Scripted(act) && SoonStale(After(s, act))
    ensures SoonStale(s)
  {
    var acts :| StaleAfter(After(s, act), acts);
    ExecFirst(s, act, acts);
    assert StaleAfter(s, [act] + acts);
  }

  lemma AtOnce(s: Local, act: Act)
    requires Sound(s) && Enabled(s, act) && !Scripted(act) && Stale(s, act)
    ensures SoonStale(s)
  {
    StaleShows(s, act);
    assert StaleAfter(After(s, act), []);
    GoesOn(s, act);
  }

  lemma HolderWrites(s: Local, k: Id)
    requires Sound(s) && Holds(s, k) && PunchCarries(s, k)
    ensures SoonStale(s)
  {
    assert HolderTied(s, s.punches[k]);
    AtOnce(s, Install(k));
  }

  lemma ResignerWrites(s: Local, k: Id)
    requires Sound(s) && Resigns(s, k) && PunchCarries(s, k)
    ensures SoonStale(s)
  {
    AtOnce(s, GiveUp(k));
  }

  /** What an act of a punch's own attempt leaves as it was. */
  lemma AttemptKeeps(s: Local, act: Act, k: Id)
    requires Enabled(s, act) && OfAttempt(act)
    ensures var s' := After(s, act);
            s'.record == s.record && s'.chans == s.chans && s'.ends == s.ends && s'.punches == s.punches
  {
  }

  lemma LaunchedCarries(s: Local, act: Act, k: Id)
    requires Selects(s, k) && Enabled(s, act) && act.Launch? && act.k == k
    requires WrongDst(s.record, s.punches[k].peer.id, s.punches[k].peer.info.vip)
    ensures PunchCarries(After(s, act), k)
  {
  }

  lemma NearerCarries(s: Local, k: Id, act: Act)
    requires Live(s, k) && Selects(s, k) && PunchCarries(s, k) && Nearer(s, k, act)
    requires OfAttempt(act) || (act.Launch? && act.k == k)
    ensures PunchCarries(After(s, act), k)
  {
    if act.Launch? {
      LaunchedCarries(s, act, k);
    } else {
      AttemptKeeps(s, act, k);
    }
  }

  lemma {:induction false} LiveWrites(s: Local, k: Id)
    requires Sound(s) && Live(s, k) && PunchCarries(s, k)
    ensures SoonStale(s)
    decreases Distance(s, k)
  {
    if Holds(s, k) {
      HolderWrites(s, k);
    } else {
      var act := SomeNearer(s, k);
      NearerCarries(s, k, act);
      ActKeepsSound(s, act);
      LiveWrites(After(s, act), k);
      GoesOn(s, act);
    }
  }

  lemma BackWrites(s: Local, k: Id)
    requires Sound(s) && Selects(s, k) && CameBack(s, k) && PunchCarries(s, k)
    requires !Channels.HasP2P(s.chans, s.punches[k].peer.id)
    ensures SoonStale(s)
  {
    ActKeepsSound(s, Resign(k));
    ResignerWrites(After(s, Resign(k)), k);
    GoesOn(s, Resign(k));
  }

  lemma ReturnedWrites(s: Local, k: Id)
    requires Sound(s) && Selects(s, k) && k in s.table.result && PunchCarries(s, k)
    requires !Channels.HasP2P(s.chans, s.punches[k].peer.id)
    ensures SoonStale(s)
  {
    if k in s.table.cleaned {
      BackWrites(s, k);
    } else {
      var s' := After(s, Cleanup(k));
      ActKeepsSound(s, Cleanup(k));
      AttemptKeeps(s, Cleanup(k), k);
      BackWrites(s', k);
      GoesOn(s, Cleanup(k));
    }
  }

  lemma HopelessWrites(s: Local, k: Id)
    requires Sound(s) && Selects(s, k) && !Live(s, k) && PunchCarries(s, k)
    ensures SoonStale(s)
  {
    if k in s.refused {
      BackWrites(s, k);
    } else if k in s.table.result {
      ReturnedWrites(s, k);
    } else {
      var s' := After(s, Return(k, false));
      ActKeepsSound(s, Return(k, false));
      AttemptKeeps(s, Return(k, false), k);
      ReturnedWrites(s', k);
      GoesOn(s, Return(k, false));
    }
  }

  lemma PunchWrites(s: Local, k: Id)
    requires Sound(s) && PunchCarries(s, k)
    ensures SoonStale(s)
  {
    if Live(s, k) {
      LiveWrites(s, k);
    } else if Resigns(s, k) {
      ResignerWrites(s, k);
    } else {
      HopelessWrites(s, k);
    }
  }

  lemma EquippedWrites(s: Local, e: Id)
    requires Sound(s) && ErrandCarries(s, e) && s.errands[e].Equipped?
    ensures SoonStale(s)
  {
    AtOnce(s, Ensure(e));
  }

  lemma MatchedWrites(s: Local, e: Id)
    requires Sound(s) && ErrandCarries(s, e) && s.errands[e].Matched?
    ensures SoonStale(s)
  {
    var t := Above(s.chans.created);
    AtOnce(s, Accept(e, t));
  }

  lemma ErrandWrites(s: Local, e: Id)
    requires Sound(s) && ErrandCarries(s, e)
    ensures SoonStale(s)
  {
    match s.errands[e]
    case Sending(id, dst) =>
      ActKeepsSound(s, Equip(e));
      EquippedWrites(After(s, Equip(e)), e);
      GoesOn(s, Equip(e));
    case Equipped(_, _, _) => EquippedWrites(s, e);
    case Answering(remote, src) =>
      var id :| Answerable(s, remote, id);
      ActKeepsSound(s, Match(e, id));
      MatchedWrites(After(s, Match(e, id)), e);
      GoesOn(s, Match(e, id));
    case Matched(_, _, _, _) => MatchedWrites(s, e);
  }

  lemma DueWrites(s: Local, p: PeerInfo)
    requires Sound(s) && DueCarries(s, p)
    ensures SoonStale(s)
  {
    var k := Above(s.punches.Keys);
    var s' := After(s, Begin(k, p));
    ActKeepsSound(s, Begin(k, p));
    assert Live(s', k) && PunchCarries(s', k);
    LiveWrites(s', k);
    GoesOn(s, Begin(k, p));
  }

  lemma CarriersWrite(s: Local)
    requires Sound(s) && Carries(s)
    ensures SoonStale(s)
  {
    if k :| PunchCarries(s, k) {
      PunchWrites(s, k);
    } else if e :| ErrandCarries(s, e) {
      ErrandWrites(s, e);
    } else {
      var p :| DueCarries(s, p);
      DueWrites(s, p);
    }
  }

  // ---------------------------------------------------------------- and nothing else does

  /** Internal acts record nothing and remove no channel. */
  lemma InternalKeeps(s: Local, act: Act)
    requires Enabled(s, act) && !Scripted(act)
    ensures After(s, act).record == s.record && After(s, act).due <= s.due
    ensures s.chans.slots.Keys <= After(s, act).chans.slots.Keys
    ensures forall id :: Channels.HasP2P(s.chans, id) ==> Channels.HasP2P(After(s, act).chans, id)
  {
  }

  lemma StaleNeedsCarrier(s: Local, act: Act)
    requires Enabled(s, act) && !Scripted(act) && Stale(s, act)
    ensures Carries(s)
  {
    if act.Install? || act.GiveUp? {
      assert PunchCarries(s, act.k);
    } else {
      assert ErrandCarries(s, act.e);
    }
  }

  lemma SucceededLive(s: Local, k: Id)
    requires Sound(s) && Selects(s, k) && Succeeded(s, k)
    ensures Live(s, k)
  {
  }

  lemma PunchCarried(s: Local, act: Act, k: Id)
    requires Sound(s) && Enabled(s, act) && !Scripted(act) && PunchCarries(After(s, act), k)
    ensures Carries(s)
  {
    var s' := After(s, act);
    InternalKeeps(s, act);
    if k !in s.punches {
      assert DueCarries(s, act.peer);
    } else {
      PeersAfter(s, act, k);
      if Live(s', k) {
        OnlyLiveAct(s, act, k);
      }
      if Holds(s, k) {
        HolderBefore(s, act, k);
        StoredStays(s, act, Channels.P2P(s.punches[k].stage.chan));
      } else if act.Launch? && act.k == k {
        SucceededLive(s, k);
      }
      assert PunchCarries(s, k);
    }
  }

  lemma ErrandCarried(s: Local, act: Act, e: Id)
    requires Enabled(s, act) && !Scripted(act) && ErrandCarries(After(s, act), e)
    ensures Carries(s)
  {
    var s' := After(s, act);
    InternalKeeps(s, act);
    if s'.errands[e].Answering? {
      var id :| Answerable(s', s'.errands[e].remote, id);
      assert Answerable(s, s'.errands[e].remote, id);
    } else if act == Match(e, s'.errands[e].id) {
      assert Answerable(s, s.errands[e].remote, act.id);
    }
    assert ErrandCarries(s, e);
  }

  lemma NoneCarried(s: Local, act: Act)
    requires Sound(s) && Enabled(s, act) && !Scripted(act) && Carries(After(s, act))
    ensures Carries(s)
  {
    var s' := After(s, act);
    if k :| PunchCarries(s', k) {
      PunchCarried(s, act, k);
    } else if e :| ErrandCarries(s', e) {
      ErrandCarried(s, act, e);
    } else {
      var p :| DueCarries(s', p);
      InternalKeeps(s, act);
      assert DueCarries(s, p);
    }
  }

  lemma {:induction false} NoneStaysCurrent(s: Local, acts: seq<Act>)
    requires Sound(s) && Current(s) && !Carries(s) && Legal(s, acts) && Internal(acts)
    ensures Current(Exec(s, acts))
    decreases |acts|
  {
    if |acts| > 0 {
      var act := acts[0];
      assert !Scripted(act);
      if Stale(s, act) { StaleNeedsCarrier(s, act); }
      ActCurrentIff(s, act);
      if Carries(After(s, act)) { NoneCarried(s, act); }
      ActKeepsSound(s, act);
      NoneStaysCurrent(After(s, act), acts[1..]);
    }
  }

  /** After any run that has left all stored numbers current: without another message, and without
      leaving, some channel can become stale exactly if a punch or an errand carries numbers other than
      those on record and can still write them. */
  lemma SoonStaleIff(start: Local, before: seq<Act>)
    requires Start(start) && Legal(start, before) && Current(Exec(start, before))
    ensures SoonStale(Exec(start, before)) <==> Carries(Exec(start, before))
  {
    var s := Exec(start, before);
    StartSound(start);
    ExecKeepsSound(start, before);
    if Carries(s) {
      CarriersWrite(s);
    } else if SoonStale(s) {
      var acts :| StaleAfter(s, acts);
      NoneStaysCurrent(s, acts);
      assert false;
    }
  }
}
