/** Lowest-free virtual IP allocation inside one room (server/internal/room/room.go), as a
    function of the room's member table, and what it guarantees over whole runs. */
module Vip {

  // Peer IDs, nicknames, room numbers and "host:port" endpoints: texts that are only compared.
  type Name(==, !new)
  type PeerId = Name
  type Endpoint = Name

  const VIP_START: nat := 2
  const VIP_LIMIT: nat := 0xFFFF
  // How many host numbers the allocator can hand out: 2 .. 65534.
  const CAPACITY: nat := VIP_LIMIT - VIP_START

  datatype Member = Member(vip: nat, addr: Endpoint, lastSeen: int)
  type Members = map<PeerId, Member>

  function Used(m: Members): set<nat> {
    set id | id in m :: m[id].vip
  }

  /** v is the least host number nobody uses, counting from 2. */
  ghost predicate IsLeastFree(used: set<nat>, v: int) {
    VIP_START <= v < VIP_LIMIT && v !in used && forall w :: VIP_START <= w < v ==> w in used
  }

  ghost predicate Exhausted(used: set<nat>) {
    forall v :: VIP_START <= v < VIP_LIMIT ==> v in used
  }

  /** The number a newcomer gets: the least free one, or 2 again once all are in use. */
  ghost function Alloc(m: Members): nat {
    if exists v :: IsLeastFree(Used(m), v) then
      var v :| IsLeastFree(Used(m), v); v
    else VIP_START
  }

  /** What can happen to one room: a join or rejoin, a leave, a heartbeat, a timeout scan, or
      something that does not concern it. */
  datatype Op =
    | Join(id: PeerId, addr: Endpoint, now: int)
    | Leave(id: PeerId)
    | Touch(id: PeerId, now: int)
    | Scan(now: int, timeout: int)
    | Idle

  ghost function JoinStep(m: Members, id: PeerId, addr: Endpoint, now: int): Members {
    if id in m then m[id := m[id].(addr := addr, lastSeen := now)]
    else m[id := Member(Alloc(m), addr, now)]
  }

  function TouchStep(m: Members, id: PeerId, now: int): Members {
    if id in m then m[id := m[id].(lastSeen := now)] else m
  }

  function Expired(m: Members, now: int, timeout: int): set<PeerId> {
    set id | id in m && now - m[id].lastSeen > timeout
  }

  function ScanStep(m: Members, now: int, timeout: int): Members {
    m - Expired(m, now, timeout)
  }

  ghost function Step(m: Members, op: Op): Members {
    match op
    case Join(id, addr, now) => JoinStep(m, id, addr, now)
    case Leave(id) => m - {id}
    case Touch(id, now) => TouchStep(m, id, now)
    case Scan(now, timeout) => ScanStep(m, now, timeout)
    case Idle => m
  }

  ghost function Run(m: Members, ops: seq<Op>): Members {
    if |ops| == 0 then m else Step(Run(m, ops[..|ops| - 1]), ops[|ops| - 1])
  }

  lemma RunSnoc(m: Members, ops: seq<Op>, op: Op)
    ensures Run(m, ops + [op]) == Step(Run(m, ops), op)
  {
    assert (ops + [op])[..|ops|] == ops;
  }

  // ---------------------------------------------------------------- allocation

  /** Counting up from 2 either meets the least free number or finds all of them in use. */
  lemma {:induction false} SearchFindsLeast(used: set<nat>, from: nat)
    requires VIP_START <= from <= VIP_LIMIT
    requires forall w :: VIP_START <= w < from ==> w in used
    ensures Exhausted(used) || exists v :: IsLeastFree(used, v)
    decreases VIP_LIMIT - from
  {
    if from < VIP_LIMIT {
      if from in used {
        SearchFindsLeast(used, from + 1);
      } else {
        assert IsLeastFree(used, from);
      }
    }
  }

  predicate Between(lo: nat, v: nat, hi: nat) {
    lo <= v < hi
  }

  function Interval(lo: nat, hi: nat): set<nat> {
    set v: nat | lo <= v < hi && Between(lo, v, hi)
  }

  lemma {:induction false} IntervalCardinality(lo: nat, hi: nat)
    requires lo <= hi
    ensures |Interval(lo, hi)| == hi - lo
    decreases hi
  {
    if lo < hi {
      IntervalCardinality(lo, hi - 1);
      assert Interval(lo, hi) == Interval(lo, hi - 1) + {hi - 1};
    } else {
      assert Interval(lo, hi) == {};
    }
  }

  lemma {:induction false} SubsetCardinality<T>(a: set<T>, b: set<T>)
    requires a <= b
    ensures |a| <= |b|
    ensures |a| == |b| ==> a == b
  {
    assert b == a + (b - a);
    assert |b| == |a| + |b - a|;
  }

  /** Pigeonhole: numbers in use cannot outnumber members, and match them only without sharing. */
  lemma {:induction false} UsedCardinality(m: Members)
    ensures |Used(m)| <= |m|
    ensures Unique(m) ==> |Used(m)| == |m|
    decreases |m|
  {
    if m != map[] {
      var id :| id in m;
      var rest := m - {id};
      assert m.Keys == rest.Keys + {id};
      UsedCardinality(rest);
      assert Used(m) == Used(rest) + {m[id].vip};
      if Unique(m) {
        assert m[id].vip !in Used(rest);
      }
    }
  }

  ghost predicate Unique(m: Members) {
    forall a, b :: a in m && b in m && a != b ==> m[a].vip != m[b].vip
  }

  ghost predicate InRange(m: Members) {
    forall id :: id in m ==> VIP_START <= m[id].vip < VIP_LIMIT
  }

  lemma TakenBelow(m: Members, r: nat)
    requires VIP_START <= r
    requires forall v :: VIP_START <= v < r ==> v in Used(m)
    ensures r <= |m| + VIP_START
  {
    var taken := Interval(VIP_START, r);
    assert taken <= Used(m);
    IntervalCardinality(VIP_START, r);
    SubsetCardinality(taken, Used(m));
    UsedCardinality(m);
  }

  /** The allocator's promise for any member table: below capacity the number is the least free
      one and at most the member count plus two; it repeats a used one only when none is free. */
  lemma AllocIsLeastFree(m: Members)
    ensures 2 <= Alloc(m) <= 65534
    ensures |m| < 65533 ==> IsLeastFree(Used(m), Alloc(m)) && Alloc(m) <= |m| + 2
    ensures Alloc(m) in Used(m) <==> Exhausted(Used(m))
  {
    SearchFindsLeast(Used(m), VIP_START);
    var r := Alloc(m);
    if Exhausted(Used(m)) {
      TakenBelow(m, VIP_LIMIT);
      assert !IsLeastFree(Used(m), r);
    } else {
      assert IsLeastFree(Used(m), r);
      TakenBelow(m, r);
    }
  }

  /** A join keeps the room's numbers distinct exactly when it is a rejoin or fewer than 65,533
      members are present; a join into a full room hands out 2 a second time. */
  lemma JoinKeepsUniqueIff(m: Members, id: PeerId, addr: Endpoint, now: int)
    requires Unique(m) && InRange(m)
    ensures InRange(JoinStep(m, id, addr, now))
    ensures Unique(JoinStep(m, id, addr, now)) <==> id in m || |m| < 65533
    ensures id !in m && |m| >= 65533 ==> JoinStep(m, id, addr, now)[id].vip == 2
  {
    var next := JoinStep(m, id, addr, now);
    AllocIsLeastFree(m);
    if id in m {
      forall a, b | a in next && b in next && a != b ensures next[a].vip != next[b].vip {
        assert next[a].vip == m[a].vip && next[b].vip == m[b].vip;
      }
    } else if |m| < CAPACITY {
      forall a, b | a in next && b in next && a != b ensures next[a].vip != next[b].vip {
        if a == id { assert m[b].vip in Used(m); }
        if b == id { assert m[a].vip in Used(m); }
      }
    } else {
      FullRoomHasNoFreeNumber(m);
      var holder :| holder in m && m[holder].vip == Alloc(m);
      assert next[holder].vip == next[id].vip;
    }
  }

  lemma FullRoomHasNoFreeNumber(m: Members)
    requires Unique(m) && InRange(m) && |m| >= CAPACITY
    ensures Alloc(m) in Used(m) && Alloc(m) == VIP_START
  {
    UsedCardinality(m);
    IntervalCardinality(VIP_START, VIP_LIMIT);
    SubsetCardinality(Used(m), Interval(VIP_START, VIP_LIMIT));
    AllocIsLeastFree(m);
  }

  // ---------------------------------------------------------------- whole runs

  /** Every join of a newcomer in the run finds at most 65,532 members. */
  ghost predicate JoinsFindRoom(m: Members, ops: seq<Op>) {
    forall i :: 0 <= i < |ops| && ops[i].Join? && ops[i].id !in Run(m, ops[..i])
      ==> |Run(m, ops[..i])| < CAPACITY
  }

  lemma PrefixFindsRoom(m: Members, ops: seq<Op>)
    requires |ops| > 0 && JoinsFindRoom(m, ops)
    ensures JoinsFindRoom(m, ops[..|ops| - 1])
  {
    var init := ops[..|ops| - 1];
    forall i | 0 <= i < |init| ensures init[..i] == ops[..i] && init[i] == ops[i] { }
  }

  lemma StepKeepsUnique(m: Members, op: Op)
    requires Unique(m) && InRange(m)
    requires op.Join? && op.id !in m ==> |m| < CAPACITY
    ensures Unique(Step(m, op)) && InRange(Step(m, op))
  {
    match op
    case Join(id, addr, now) => JoinKeepsUniqueIff(m, id, addr, now);
    case _ =>
      var next := Step(m, op);
      forall id | id in next ensures id in m && next[id].vip == m[id].vip { }
  }

  /** Uniqueness over whole runs of joins, rejoins, leaves, heartbeats and timeout scans. */
  lemma {:induction false} RunKeepsUnique(m: Members, ops: seq<Op>)
    requires Unique(m) && InRange(m) && JoinsFindRoom(m, ops)
    ensures Unique(Run(m, ops)) && InRange(Run(m, ops))
    decreases |ops|
  {
    if |ops| > 0 {
      PrefixFindsRoom(m, ops);
      RunKeepsUnique(m, ops[..|ops| - 1]);
      StepKeepsUnique(Run(m, ops[..|ops| - 1]), ops[|ops| - 1]);
    }
  }

  /** The largest number of members seen at any point of the run. */
  ghost function Peak(m: Members, ops: seq<Op>): nat {
    if |ops| == 0 then |m|
    else
      var before := Peak(m, ops[..|ops| - 1]);
      if |Run(m, ops)| > before then |Run(m, ops)| else before
  }

  /** No number ever handed out exceeds one plus the peak membership reached so far. */
  lemma {:induction false} VipBoundedByPeak(ops: seq<Op>, id: PeerId)
    requires JoinsFindRoom(map[], ops)
    requires id in Run(map[], ops)
    ensures Run(map[], ops)[id].vip <= Peak(map[], ops) + 1
    decreases |ops|
  {
    if |ops| > 0 {
      var init, op := ops[..|ops| - 1], ops[|ops| - 1];
      var before := Run(map[], init);
      PrefixFindsRoom(map[], ops);
      if id in before {
        VipBoundedByPeak(init, id);
      } else {
        assert op.Join? && op.id == id;
        AllocIsLeastFree(before);
        assert Run(map[], ops).Keys == before.Keys + {id};
        assert |Run(map[], ops).Keys| == |before.Keys| + 1;
      }
    }
  }

  lemma UsedAfterNewcomer(m: Members, id: PeerId, mem: Member)
    requires id !in m
    ensures Used(m[id := mem]) == Used(m) + {mem.vip}
  {
    var next := m[id := mem];
    forall v | v in Used(m) + {mem.vip} ensures v in Used(next) {
      if v in Used(m) {
        var k :| k in m && m[k].vip == v;
        assert next[k].vip == v;
      } else {
        assert next[id].vip == v;
      }
    }
  }

  ghost predicate DistinctJoins(ops: seq<Op>) {
    && |ops| <= CAPACITY
    && (forall i :: 0 <= i < |ops| ==> ops[i].Join?)
    && (forall i, j :: 0 <= i < j < |ops| ==> ops[i].id != ops[j].id)
  }

  ghost predicate Mentions(ops: seq<Op>, id: PeerId) {
    exists i :: 0 <= i < |ops| && ops[i].Join? && ops[i].id == id
  }

  lemma {:induction false} JoinOnlyMembers(ops: seq<Op>, id: PeerId)
    requires forall i :: 0 <= i < |ops| ==> ops[i].Join?
    ensures id in Run(map[], ops) <==> Mentions(ops, id)
    decreases |ops|
  {
    if |ops| > 0 {
      var init, last := ops[..|ops| - 1], ops[|ops| - 1];
      JoinOnlyMembers(init, id);
      if Mentions(init, id) {
        var i :| 0 <= i < |init| && init[i].id == id;
        assert ops[i].id == id;
      }
      if Mentions(ops, id) && last.id != id {
        var i :| 0 <= i < |ops| && ops[i].id == id;
        assert init[i].id == id;
      }
    }
  }

  /** Joins alone, by n distinct peers, use exactly the numbers 2 .. n+1. */
  lemma {:induction false} JoinOnlyRun(ops: seq<Op>)
    requires DistinctJoins(ops)
    ensures |Run(map[], ops)| == |ops|
    ensures Used(Run(map[], ops)) == Interval(VIP_START, |ops| + VIP_START)
    decreases |ops|
  {
    if |ops| > 0 {
      var n := |ops| - 1;
      var before := Run(map[], ops[..n]);
      JoinOnlyRun(ops[..n]);
      JoinOnlyMembers(ops[..n], ops[n].id);
      NextJoin(before, ops[n], n);
    }
  }

  /** ... and hand them out in joining order. */
  lemma {:induction false} JoinOnlyOrder(ops: seq<Op>, i: nat)
    requires DistinctJoins(ops) && i < |ops|
    ensures ops[i].id in Run(map[], ops) && Run(map[], ops)[ops[i].id].vip == i + VIP_START
    decreases |ops|
  {
    var n := |ops| - 1;
    var before := Run(map[], ops[..n]);
    JoinOnlyRun(ops[..n]);
    JoinOnlyMembers(ops[..n], ops[n].id);
    NextJoin(before, ops[n], n);
    if i < n {
      JoinOnlyOrder(ops[..n], i);
    }
  }

  lemma IntervalSnoc(lo: nat, hi: nat)
    requires lo <= hi
    ensures Interval(lo, hi + 1) == Interval(lo, hi) + {hi}
  {
  }

  lemma NextFree(n: nat, v: nat)
    requires n < CAPACITY && IsLeastFree(Interval(VIP_START, n + VIP_START), v)
    ensures v == n + VIP_START
  {
    var used, r := Interval(VIP_START, n + VIP_START), n + VIP_START;
    assert r !in used;
    assert Between(VIP_START, v, r) ==> v in used;
  }

  lemma NextJoin(before: Members, op: Op, n: nat)
    requires op.Join? && op.id !in before && n < CAPACITY && |before| == n
    requires Used(before) == Interval(VIP_START, n + VIP_START)
    ensures Step(before, op) == before[op.id := Member(n + VIP_START, op.addr, op.now)]
    ensures Used(Step(before, op)) == Interval(VIP_START, n + 1 + VIP_START)
    ensures |Step(before, op)| == n + 1
  {
    var mem := Member(n + VIP_START, op.addr, op.now);
    AllocIsLeastFree(before);
    NextFree(n, Alloc(before));
    UsedAfterNewcomer(before, op.id, mem);
    IntervalSnoc(VIP_START, n + VIP_START);
    OneMoreKey(before, op.id, mem);
  }

  lemma OneMoreKey(m: Members, id: PeerId, mem: Member)
    requires id !in m
    ensures |m[id := mem]| == |m| + 1
  {
    assert m[id := mem].Keys == m.Keys + {id};
  }

  /** The peer neither leaves nor is removed by a timeout scan during the run. */
  ghost predicate Stays(m: Members, ops: seq<Op>, id: PeerId) {
    forall i :: 0 <= i < |ops| ==>
      && ops[i] != Leave(id)
      && (ops[i].Scan? ==> id !in Expired(Run(m, ops[..i]), ops[i].now, ops[i].timeout))
  }

  /** The peer is a member after every prefix of the run. */
  ghost predicate Present(m: Members, ops: seq<Op>, id: PeerId) {
    forall n :: 0 <= n <= |ops| ==> id in Run(m, ops[..n])
  }

  lemma PresentPrefix(m: Members, ops: seq<Op>, id: PeerId)
    requires |ops| > 0
    ensures Present(m, ops, id) <==> Present(m, ops[..|ops| - 1], id) && id in Run(m, ops)
  {
    var init := ops[..|ops| - 1];
    assert ops[..|ops|] == ops;
    forall n | 0 <= n <= |init| ensures init[..n] == ops[..n] { }
  }

  lemma StaysPrefix(m: Members, ops: seq<Op>, id: PeerId)
    requires |ops| > 0
    ensures var init, last := ops[..|ops| - 1], ops[|ops| - 1];
            Stays(m, ops, id) <==>
            && Stays(m, init, id) && last != Leave(id)
            && (last.Scan? ==> id !in Expired(Run(m, init), last.now, last.timeout))
  {
    var init := ops[..|ops| - 1];
    forall i | 0 <= i < |init| ensures init[..i] == ops[..i] && init[i] == ops[i] { }
  }

  /** A member loses its place by its own leave or timeout and by nothing else, and otherwise keeps
      its number, however often it rejoins and whatever the others do. */
  lemma {:induction false} VipStable(m: Members, ops: seq<Op>, id: PeerId)
    requires id in m
    ensures Present(m, ops, id) <==> Stays(m, ops, id)
    ensures Stays(m, ops, id) ==> id in Run(m, ops) && Run(m, ops)[id].vip == m[id].vip
    decreases |ops|
  {
    if |ops| > 0 {
      VipStable(m, ops[..|ops| - 1], id);
      PresentPrefix(m, ops, id);
      StaysPrefix(m, ops, id);
    } else {
      assert ops[..0] == ops;
    }
  }

  // ---------------------------------------------------------------- lookup by number

  /** What a scan of the peers in some order may answer when asked who holds a number. */
  ghost predicate LookupAnswer(m: Members, vip: nat, found: PeerId) {
    found in m && m[found].vip == vip
  }

  /** The answer is independent of the order of the scan exactly when no number is shared. */
  lemma LookupDeterminedIffUnique(m: Members)
    ensures Unique(m) <==>
            forall vip, a, b :: LookupAnswer(m, vip, a) && LookupAnswer(m, vip, b) ==> a == b
  {
    if !Unique(m) {
      var a, b :| a in m && b in m && a != b && m[a].vip == m[b].vip;
      assert LookupAnswer(m, m[a].vip, a) && LookupAnswer(m, m[a].vip, b);
    }
  }
}
