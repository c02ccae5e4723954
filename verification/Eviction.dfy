/** When a silent member is removed (server/internal/room/room.go, server/internal/signaling/
    signaling.go): heartbeats every 5 s, scans every 5 s, a timeout of 15 s, over whole runs of one
    room and then of the whole system. Tickers are exact and the delay of a client's packets is
    constant. */
module Eviction {
  import opened Vip
  import opened RoomServer
  import opened Membership
  import opened Signaling

  predicate Timed(op: Op) {
    op.Join? || op.Touch? || op.Scan?
  }

  function Time(op: Op): int
    requires Timed(op)
  {
    match op
    case Join(_, _, now) => now
    case Touch(_, now) => now
    case Scan(now, _) => now
  }

  /** The operations come in the order of their times, none before t0, and scans use the timeout. */
  ghost predicate InTime(ops: seq<Op>, t0: int) {
    && (forall i :: 0 <= i < |ops| && Timed(ops[i]) ==> t0 <= Time(ops[i]))
    && (forall i, j :: 0 <= i < j < |ops| && Timed(ops[i]) && Timed(ops[j]) ==> Time(ops[i]) <= Time(ops[j]))
    && (forall i :: 0 <= i < |ops| && ops[i].Scan? ==> ops[i].timeout == PEER_TIMEOUT)
  }

  predicate Heard(op: Op, id: PeerId) {
    (op.Join? || op.Touch?) && op.id == id
  }

  lemma InTimePrefix(ops: seq<Op>, t0: int, n: nat)
    requires InTime(ops, t0) && n <= |ops|
    ensures InTime(ops[..n], t0)
  {
  }

  // ---------------------------------------------------------------- a client that keeps up

  /** Heartbeat k of the client arrives, if it arrives, at b + 5 s k, the first within one interval
      of t0. Of any three in a row at least one is handled before any scan that comes later. */
  ghost predicate NoThreeLost(ops: seq<Op>, id: PeerId, t0: int, b: int) {
    && t0 < b <= t0 + HEARTBEAT_INTERVAL
    && forall i, k: nat ::
         0 <= i < |ops| && ops[i].Scan? && Beat(b, k + 2) < ops[i].now ==> OneOfThree(ops[..i], id, b, k)
  }

  function Beat(b: int, k: nat): int {
    b + k * HEARTBEAT_INTERVAL
  }

  ghost predicate OneOfThree(ops: seq<Op>, id: PeerId, b: int, k: nat) {
    Touch(id, Beat(b, k)) in ops || Touch(id, Beat(b, k + 1)) in ops || Touch(id, Beat(b, k + 2)) in ops
  }

  lemma NoThreeLostPrefix(ops: seq<Op>, id: PeerId, t0: int, b: int, n: nat)
    requires NoThreeLost(ops, id, t0, b) && n <= |ops|
    ensures NoThreeLost(ops[..n], id, t0, b)
  {
    forall i | 0 <= i < n ensures ops[..n][..i] == ops[..i] { }
  }

  /** The three beats before a late scan. */
  lemma BeatsBefore(t0: int, b: int, now: int) returns (k: nat)
    requires t0 < b <= t0 + HEARTBEAT_INTERVAL && t0 + PEER_TIMEOUT < now
    ensures now - PEER_TIMEOUT <= Beat(b, k) && Beat(b, k + 2) < now
  {
    if now - PEER_TIMEOUT <= b {
      k := 0;
    } else {
      var gap := now - PEER_TIMEOUT - b;
      k := (gap + HEARTBEAT_INTERVAL - 1) / HEARTBEAT_INTERVAL;
    }
  }

  /** While the member is present, its timer shows its latest sign of life. */
  lemma {:induction false} TimerIsLatest(m: Members, ops: seq<Op>, id: PeerId, t0: int)
    requires InTime(ops, t0) && Present(m, ops, id) && id in m && m[id].lastSeen >= t0
    ensures id in Run(m, ops) && Run(m, ops)[id].lastSeen >= t0
    ensures forall op :: op in ops && Heard(op, id) ==> Run(m, ops)[id].lastSeen >= Time(op)
    decreases |ops|
  {
    assert ops[..|ops|] == ops;
    if |ops| > 0 {
      var init, last := ops[..|ops| - 1], ops[|ops| - 1];
      assert ops == init + [last];
      InTimePrefix(ops, t0, |ops| - 1);
      PresentPrefix(m, ops, id);
      TimerIsLatest(m, init, id, t0);
      if Heard(last, id) {
        LastIsLatest(init, last, t0, id);
      }
    }
  }

  lemma LastIsLatest(init: seq<Op>, last: Op, t0: int, id: PeerId)
    requires InTime(init + [last], t0) && Heard(last, id)
    ensures Time(last) >= t0 && forall op :: op in init && Heard(op, id) ==> Time(op) <= Time(last)
  {
    var ops := init + [last];
    assert ops[|init|] == last;
    forall op | op in init && Heard(op, id) ensures Time(op) <= Time(last) {
      var i :| 0 <= i < |init| && init[i] == op;
      assert ops[i] == op;
    }
  }

  lemma TouchedLately(m: Members, ops: seq<Op>, id: PeerId, t0: int, b: int, k: nat)
    requires InTime(ops, t0) && Present(m, ops, id) && id in m && m[id].lastSeen >= t0 && OneOfThree(ops, id, b, k)
    ensures id in Run(m, ops) && Run(m, ops)[id].lastSeen >= Beat(b, k)
  {
    var at := HeardBeat(ops, id, b, k);
    BeatShows(m, ops, id, t0, at);
  }

  lemma HeardBeat(ops: seq<Op>, id: PeerId, b: int, k: nat) returns (at: int)
    requires OneOfThree(ops, id, b, k)
    ensures Touch(id, at) in ops && at >= Beat(b, k)
  {
    at := if Touch(id, Beat(b, k)) in ops then Beat(b, k)
          else if Touch(id, Beat(b, k + 1)) in ops then Beat(b, k + 1) else Beat(b, k + 2);
  }

  lemma BeatShows(m: Members, ops: seq<Op>, id: PeerId, t0: int, at: int)
    requires InTime(ops, t0) && Present(m, ops, id) && id in m && m[id].lastSeen >= t0 && Touch(id, at) in ops
    ensures id in Run(m, ops) && Run(m, ops)[id].lastSeen >= at
  {
    TimerIsLatest(m, ops, id, t0);
    assert Heard(Touch(id, at), id) && Time(Touch(id, at)) == at;
  }

  /** A scan spares a member heard of within 15 s. */
  lemma ScanSpares(m: Members, id: PeerId, now: int)
    requires id in m && now <= m[id].lastSeen + PEER_TIMEOUT
    ensures id in Step(m, Scan(now, PEER_TIMEOUT))
  {
  }

  /** A member whose heartbeats never lose three in a row is never evicted, however the scans fall. */
  lemma {:induction false} NeverEvicted(m: Members, ops: seq<Op>, id: PeerId, t0: int, b: int)
    requires id in m && m[id].lastSeen >= t0
    requires InTime(ops, t0) && NoThreeLost(ops, id, t0, b) && Leave(id) !in ops
    ensures Present(m, ops, id)
    decreases |ops|
  {
    if |ops| > 0 {
      var n := |ops| - 1;
      var init, last := ops[..n], ops[n];
      InTimePrefix(ops, t0, n);
      NoThreeLostPrefix(ops, id, t0, b, n);
      assert ops == init + [last];
      NeverEvicted(m, init, id, t0, b);
      assert init[..n] == init && id in Run(m, init);
      assert last in ops;
      if last.Scan? {
        HeardLately(m, ops, id, t0, b);
        ScanSpares(Run(m, init), id, last.now);
      }
      PresentPrefix(m, ops, id);
    } else {
      assert ops[..0] == [];
    }
  }

  lemma HeardLately(m: Members, ops: seq<Op>, id: PeerId, t0: int, b: int)
    requires |ops| > 0 && ops[|ops| - 1].Scan? && id in m && m[id].lastSeen >= t0
    requires InTime(ops, t0) && NoThreeLost(ops, id, t0, b) && Present(m, ops[..|ops| - 1], id)
    ensures var before := Run(m, ops[..|ops| - 1]);
            id in before && ops[|ops| - 1].now <= before[id].lastSeen + PEER_TIMEOUT
  {
    var n := |ops| - 1;
    InTimePrefix(ops, t0, n);
    TimerIsLatest(m, ops[..n], id, t0);
    if t0 + PEER_TIMEOUT < ops[n].now {
      var k := BeatsBefore(t0, b, ops[n].now);
      TouchedLately(m, ops[..n], id, t0, b, k);
    }
  }

  // ---------------------------------------------------------------- a client that falls silent

  /** A member not heard of again stays exactly until its own leave or the first scan later than its
      last sign of life plus 15 s. */
  lemma {:induction false} SilentStaysIff(m: Members, ops: seq<Op>, id: PeerId)
    requires id in m && forall i :: 0 <= i < |ops| ==> !Heard(ops[i], id)
    requires forall i :: 0 <= i < |ops| && ops[i].Scan? ==> ops[i].timeout == PEER_TIMEOUT
    ensures id in Run(m, ops) <==>
            && Leave(id) !in ops
            && forall i :: 0 <= i < |ops| && ops[i].Scan? ==> ops[i].now <= m[id].lastSeen + 15_000_000_000
    ensures id in Run(m, ops) ==> Run(m, ops)[id].lastSeen == m[id].lastSeen
    decreases |ops|
  {
    if |ops| > 0 {
      var init, last := ops[..|ops| - 1], ops[|ops| - 1];
      assert ops == init + [last];
      SilentStaysIff(m, init, id);
    }
  }

  /** The bounds cannot be moved: a scan 15 s after the last sign of life spares the member, any later one
      removes it, and the next tick after the sparing one comes at 20 s. Nor can the three beats: with three
      lost in a row, some scan between them and the fourth removes it. */
  lemma WindowIsSharp(m: Members, id: PeerId, now: int, b: int, k: nat)
    requires id in m
    ensures id in Step(m, Scan(now, PEER_TIMEOUT)) <==> now <= m[id].lastSeen + 15_000_000_000
    ensures m[id].lastSeen + 15_000_000_000 + HEARTBEAT_INTERVAL == m[id].lastSeen + 20_000_000_000
    ensures m[id].lastSeen == Beat(b, k) ==>
              id !in Step(m, Scan(Beat(b, k + 3) + 1, PEER_TIMEOUT)) && Beat(b, k + 3) + 1 < Beat(b, k + 4)
  {
  }

  /** Of scans every 5 s, exactly one falls into any stretch (T + 15 s, T + 20 s]. */
  lemma OneScanInWindow(s: int, T: int) returns (k: int)
    ensures T + 15_000_000_000 < s + k * HEARTBEAT_INTERVAL <= T + 20_000_000_000
    ensures forall j: int ::
      T + 15_000_000_000 < s + j * HEARTBEAT_INTERVAL <= T + 20_000_000_000 ==> j == k
  {
    k := (T + 20_000_000_000 - s) / HEARTBEAT_INTERVAL;
  }

  ghost predicate LateScan(op: Op, T: int) {
    op.Scan? && op.now > T + 15_000_000_000
  }

  lemma {:induction false} FirstLateScan(ops: seq<Op>, T: int, j: nat) returns (i: nat)
    requires j < |ops| && LateScan(ops[j], T)
    ensures i <= j && LateScan(ops[i], T) && forall x :: 0 <= x < i ==> !LateScan(ops[x], T)
    decreases j
  {
    if x: nat :| x < j && LateScan(ops[x], T) {
      i := FirstLateScan(ops, T, x);
    } else {
      i := j;
    }
  }

  /** With a scan at every tick s + 5 s j, a member last heard of at T and silent since, as after three
      lost heartbeats in a row, is removed by a scan in (T + 15 s, T + 20 s], and not before. */
  lemma SilentIsEvicted(m: Members, ops: seq<Op>, id: PeerId, T: int, s: int) returns (i: nat)
    requires id in m && m[id].lastSeen == T && InTime(ops, T)
    requires Leave(id) !in ops && forall x :: 0 <= x < |ops| ==> !Heard(ops[x], id)
    requires forall j: int :: T < s + j * HEARTBEAT_INTERVAL <= T + 20_000_000_000 ==>
               Scan(s + j * HEARTBEAT_INTERVAL, PEER_TIMEOUT) in ops
    ensures i < |ops| && ops[i].Scan? && T + 15_000_000_000 < ops[i].now <= T + 20_000_000_000
    ensures forall n :: 0 <= n <= |ops| ==> (id in Run(m, ops[..n]) <==> n <= i)
  {
    var k := OneScanInWindow(s, T);
    var j :| 0 <= j < |ops| && ops[j] == Scan(s + k * HEARTBEAT_INTERVAL, PEER_TIMEOUT);
    i := FirstLateScan(ops, T, j);
    forall n | 0 <= n <= |ops| ensures id in Run(m, ops[..n]) <==> n <= i {
      SilentStaysIff(m, ops[..n], id);
      if n > i {
        assert LateScan(ops[..n][i], T);
      } else {
        forall x | 0 <= x < n && ops[..n][x].Scan? ensures ops[..n][x].now <= T + 15_000_000_000 {
          assert !LateScan(ops[x], T);
        }
      }
    }
  }

  // ---------------------------------------------------------------- the same over runs of the system

  predicate Clocked(e: Event) {
    e.ServerHandles? || e.ServerScans?
  }

  function Clock(e: Event): int
    requires Clocked(e)
  {
    match e
    case ServerHandles(_, now, _) => now
    case ServerScans(now, _, _, _) => now
  }

  /** From the i-th event on the server's clock never runs back and starts no earlier than t0, and
      scans use the timeout. */
  ghost predicate ServerTime(events: seq<Event>, i: nat, t0: int) {
    && (forall x :: i <= x < |events| && Clocked(events[x]) ==> t0 <= Clock(events[x]))
    && (forall x, y :: i <= x < y < |events| && Clocked(events[x]) && Clocked(events[y]) ==>
          Clock(events[x]) <= Clock(events[y]))
    && (forall x :: i <= x < |events| && events[x].ServerScans? ==> events[x].timeout == PEER_TIMEOUT)
  }

  /** Event x is the server handling this request of the client. */
  ghost predicate Handles(states: seq<State>, events: seq<Event>, x: nat, id: PeerId, req: Request)
    requires x < |events| < |states|
  {
    && events[x].ServerHandles? && events[x].id == id && id in states[x].clients
    && |states[x].clients[id].up| > 0 && states[x].clients[id].up[0] == req
  }

  ghost predicate BeatHandled(states: seq<State>, events: seq<Event>, x: nat, id: PeerId, r: RoomId, t: int)
    requires x < |events| < |states|
  {
    Handles(states, events, x, id, PingRequest(r)) && events[x].now == t
  }

  /** One of the client's heartbeats k, k+1, k+2 is handled among the events i .. x-1. */
  ghost predicate OneHandled(states: seq<State>, events: seq<Event>, i: nat, x: nat, id: PeerId, r: RoomId,
                             b: int, k: nat)
    requires x <= |events| < |states|
  {
    exists y, j :: i <= y < x && k <= j <= k + 2 && BeatHandled(states, events, y, id, r, Beat(b, j))
  }

  ghost predicate KeepsBeating(states: seq<State>, events: seq<Event>, i: nat, id: PeerId, r: RoomId, t0: int, b: int)
    requires |events| < |states|
  {
    && t0 < b <= t0 + HEARTBEAT_INTERVAL
    && forall x, k: nat :: i <= x < |events| && events[x].ServerScans? && Beat(b, k + 2) < events[x].now ==>
         OneHandled(states, events, i, x, id, r, b, k)
  }

  /** No leave of the client for the room is handled from event i on. */
  ghost predicate NeverLeaves(states: seq<State>, events: seq<Event>, i: nat, id: PeerId, r: RoomId)
    requires |events| < |states|
  {
    forall x :: i <= x < |events| ==> !Handles(states, events, x, id, LeaveRequest(r))
  }

  lemma OpsInTime(states: seq<State>, events: seq<Event>, r: RoomId, i: nat, t0: int)
    requires i <= |events| < |states| && ServerTime(events, i, t0)
    ensures InTime(OpsOf(states, events, r, i, |events|), t0)
  {
    var ops := OpsOf(states, events, r, i, |events|);
    forall j | 0 <= j < |ops| && Timed(ops[j]) ensures Clocked(events[i + j]) && Clock(events[i + j]) == Time(ops[j]) {
      assert ops[j] == OpOf(states[i + j], events[i + j], r);
    }
  }

  lemma OpsNeverLeave(states: seq<State>, events: seq<Event>, r: RoomId, i: nat, id: PeerId)
    requires i <= |events| < |states| && NeverLeaves(states, events, i, id, r)
    ensures Leave(id) !in OpsOf(states, events, r, i, |events|)
  {
    var ops := OpsOf(states, events, r, i, |events|);
    forall j | 0 <= j < |ops| ensures ops[j] != Leave(id) {
      assert ops[j] == OpOf(states[i + j], events[i + j], r);
      assert !Handles(states, events, i + j, id, LeaveRequest(r));
    }
  }

  lemma OpsKeepBeating(states: seq<State>, events: seq<Event>, r: RoomId, i: nat, id: PeerId, t0: int, b: int)
    requires i <= |events| < |states| && KeepsBeating(states, events, i, id, r, t0, b)
    ensures NoThreeLost(OpsOf(states, events, r, i, |events|), id, t0, b)
  {
    var ops := OpsOf(states, events, r, i, |events|);
    forall j, k: nat | 0 <= j < |ops| && ops[j].Scan? && Beat(b, k + 2) < ops[j].now
      ensures OneOfThree(ops[..j], id, b, k)
    {
      assert ops[j] == OpOf(states[i + j], events[i + j], r);
      assert OneHandled(states, events, i, i + j, id, r, b, k);
      var y, l :| i <= y < i + j && k <= l <= k + 2 && BeatHandled(states, events, y, id, r, Beat(b, l));
      assert ops[..j][y - i] == OpOf(states[y], events[y], r) == Touch(id, Beat(b, l));
    }
  }

  lemma OpsPrefix(states: seq<State>, events: seq<Event>, r: RoomId, i: nat, n: nat)
    requires i <= n <= |events| < |states|
    ensures OpsOf(states, events, r, i, |events|)[..n - i] == OpsOf(states, events, r, i, n)
  {
    var ops, some := OpsOf(states, events, r, i, |events|)[..n - i], OpsOf(states, events, r, i, n);
    forall j | 0 <= j < n - i ensures ops[j] == some[j] {
      assert ops[j] == OpOf(states[i + j], events[i + j], r);
    }
  }

  /** Over every run of the system: a member from which at least one of any three heartbeats in a row
      is handled before the next scan stays a member until it leaves. */
  lemma NeverEvictedInSystem(net: Network, states: seq<State>, events: seq<Event>, r: RoomId, id: PeerId,
                             i: nat, t0: int, b: int, n: nat)
    requires IsRun(net, states, events) && i <= n <= |events|
    requires id in RoomOf(states[i], r) && RoomOf(states[i], r)[id].lastSeen >= t0
    requires ServerTime(events, i, t0) && KeepsBeating(states, events, i, id, r, t0, b)
    requires NeverLeaves(states, events, i, id, r)
    ensures r in states[n].rooms && id in states[n].rooms[r]
  {
    var m, ops := RoomOf(states[i], r), OpsOf(states, events, r, i, |events|);
    OpsInTime(states, events, r, i, t0);
    OpsNeverLeave(states, events, r, i, id);
    OpsKeepBeating(states, events, r, i, id, t0, b);
    NeverEvicted(m, ops, id, t0, b);
    OpsPrefix(states, events, r, i, n);
    RoomRun(net, states, events, r, i, n);
    assert id in Run(m, ops[..n - i]);
  }

  /** Nothing of the client for the room is handled from event i on. */
  ghost predicate FallsSilent(states: seq<State>, events: seq<Event>, i: nat, id: PeerId, r: RoomId)
    requires |events| < |states|
  {
    forall x, req :: i <= x < |events| && Handles(states, events, x, id, req) ==> req.room != r
  }

  lemma OpsSilent(states: seq<State>, events: seq<Event>, r: RoomId, i: nat, id: PeerId)
    requires i <= |events| < |states| && FallsSilent(states, events, i, id, r)
    ensures var ops := OpsOf(states, events, r, i, |events|);
            Leave(id) !in ops && forall j :: 0 <= j < |ops| ==> !Heard(ops[j], id)
  {
    var ops := OpsOf(states, events, r, i, |events|);
    forall j | 0 <= j < |ops| ensures ops[j] != Leave(id) && !Heard(ops[j], id) {
      var e, s := events[i + j], states[i + j];
      assert ops[j] == OpOf(s, e, r);
      if e.ServerHandles? && e.id == id && id in s.clients && |s.clients[id].up| > 0 {
        assert Handles(states, events, i + j, id, s.clients[id].up[0]);
      }
    }
  }

  /** The server scans at every tick s + 5 s j in (T, T + 20 s]. */
  ghost predicate ScansTick(events: seq<Event>, i: nat, T: int, s: int) {
    forall j: int :: T < s + j * HEARTBEAT_INTERVAL <= T + 20_000_000_000 ==>
      exists y :: i <= y < |events| && events[y].ServerScans? && events[y].now == s + j * HEARTBEAT_INTERVAL
  }

  lemma OpsScanned(states: seq<State>, events: seq<Event>, r: RoomId, i: nat, T: int, s: int, j: int)
    requires i <= |events| < |states| && ServerTime(events, i, T) && ScansTick(events, i, T, s)
    requires T < s + j * HEARTBEAT_INTERVAL <= T + 20_000_000_000
    ensures Scan(s + j * HEARTBEAT_INTERVAL, PEER_TIMEOUT) in OpsOf(states, events, r, i, |events|)
  {
    var y :| i <= y < |events| && events[y].ServerScans? && events[y].now == s + j * HEARTBEAT_INTERVAL;
    assert OpsOf(states, events, r, i, |events|)[y - i] == OpOf(states[y], events[y], r);
  }

  lemma SilentOps(states: seq<State>, events: seq<Event>, r: RoomId, id: PeerId, i: nat, T: int, s: int)
      returns (k: nat)
    requires i <= |events| < |states|
    requires id in RoomOf(states[i], r) && RoomOf(states[i], r)[id].lastSeen == T
    requires ServerTime(events, i, T) && FallsSilent(states, events, i, id, r) && ScansTick(events, i, T, s)
    ensures var m, ops := RoomOf(states[i], r), OpsOf(states, events, r, i, |events|);
            && k < |ops| && ops[k].Scan? && T + 15_000_000_000 < ops[k].now <= T + 20_000_000_000
            && forall n :: 0 <= n <= |ops| ==> (id in Run(m, ops[..n]) <==> n <= k)
  {
    OpsInTime(states, events, r, i, T);
    OpsSilent(states, events, r, i, id);
    forall j: int | T < s + j * HEARTBEAT_INTERVAL <= T + 20_000_000_000
      ensures Scan(s + j * HEARTBEAT_INTERVAL, PEER_TIMEOUT) in OpsOf(states, events, r, i, |events|)
    {
      OpsScanned(states, events, r, i, T, s, j);
    }
    k := SilentIsEvicted(RoomOf(states[i], r), OpsOf(states, events, r, i, |events|), id, T, s);
  }

  /** Over every run of the system: a member last heard of at T and silent since is removed by a scan
      in (T + 15 s, T + 20 s], and is a member exactly until then. */
  lemma SilentIsEvictedInSystem(net: Network, states: seq<State>, events: seq<Event>, r: RoomId, id: PeerId,
                                i: nat, T: int, s: int) returns (x: nat)
    requires IsRun(net, states, events) && i <= |events|
    requires id in RoomOf(states[i], r) && RoomOf(states[i], r)[id].lastSeen == T
    requires ServerTime(events, i, T) && FallsSilent(states, events, i, id, r)
    requires ScansTick(events, i, T, s)
    ensures i <= x < |events| && events[x].ServerScans?
    ensures T + 15_000_000_000 < events[x].now <= T + 20_000_000_000
    ensures forall n :: i <= n <= |events| ==> (id in RoomOf(states[n], r) <==> n <= x)
  {
    var k := SilentOps(states, events, r, id, i, T, s);
    x := i + k;
    assert OpsOf(states, events, r, i, |events|)[k] == OpOf(states[x], events[x], r);
    forall n | i <= n <= |events| ensures id in RoomOf(states[n], r) <==> n <= x {
      OpsPrefix(states, events, r, i, n);
      RoomRun(net, states, events, r, i, n);
    }
  }
}
