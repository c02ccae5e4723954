/** The hole-punching attempts waiting for a reply (client/core/client.go): the table of one-shot
    notifications by address, shared by concurrent attempts, the receive loop and LeaveRoom. One
    locked section is one step; the steps interleave in any order. T identifies a notification. */
module Punches {
  import opened Vip

  datatype Cause = ByReply(from: Endpoint) | ByLeave

  /** pending is the shared table. Of every attempt so far: the address it registered under, what
      closed its notification, what it returned; cleaned are those whose deferred removal has run. */
  datatype PunchState<T> = PunchState(pending: map<Endpoint, T>, key: map<T, Endpoint>, closed: map<T, Cause>,
                                      result: map<T, bool>, cleaned: set<T>)

  datatype Step<T> =
    | Register(addr: Endpoint, notif: T) // punchOne: an attempt for a free address
    | Refuse(addr: Endpoint)             // punchOne: the address is taken, return false at once
    | Reply(from: Endpoint)              // handleIncomingPunch: a punch_reply
    | LeaveRoom
    | Return(notif: T, ok: bool)         // punchOne: leave the wait loop
    | Cleanup(notif: T)                  // punchOne: the deferred removal, by address

  ghost predicate Enabled<T>(s: PunchState<T>, step: Step<T>) {
    match step
    case Register(addr, n) => addr !in s.pending && n !in s.key
    case Refuse(addr) => addr in s.pending
    case Reply(_) => true
    case LeaveRoom => true
    case Return(n, ok) => n in s.key && n !in s.result && (ok ==> n in s.closed)
    case Cleanup(n) => n in s.key && n in s.result && n !in s.cleaned
  }

  ghost function ByLeaving<T>(notifs: set<T>): map<T, Cause> {
    map n | n in notifs :: ByLeave
  }

  ghost function After<T>(s: PunchState<T>, step: Step<T>): PunchState<T>
    requires Enabled(s, step)
  {
    match step
    case Register(addr, n) => s.(pending := s.pending[addr := n], key := s.key[n := addr])
    case Refuse(_) => s
    case Reply(from) =>
      if from in s.pending then
        s.(pending := s.pending - {from}, closed := s.closed[s.pending[from] := ByReply(from)])
      else s
    case LeaveRoom => s.(pending := map[], closed := s.closed + ByLeaving(s.pending.Values))
    case Return(n, ok) => s.(result := s.result[n := ok])
    case Cleanup(n) => s.(pending := s.pending - {s.key[n]}, cleaned := s.cleaned + {n})
  }

  /** The notifications a step closes; closing one twice would panic. */
  ghost function Closes<T>(s: PunchState<T>, step: Step<T>): set<T> {
    match step
    case Reply(from) => if from in s.pending then {s.pending[from]} else {}
    case LeaveRoom => s.pending.Values
    case _ => {}
  }

  ghost predicate Start<T>(s: PunchState<T>) {
    s == PunchState(map[], map[], map[], map[], {})
  }

  /** Every registered notification is open and stands under its own address; only closed ones
      report success, and a reply closes only the attempt of the address it came from. */
  ghost predicate Inv<T>(s: PunchState<T>) {
    && (forall a :: a in s.pending ==>
          s.pending[a] in s.key && s.key[s.pending[a]] == a && s.pending[a] !in s.closed && s.pending[a] !in s.cleaned)
    && s.closed.Keys <= s.key.Keys && s.cleaned <= s.result.Keys <= s.key.Keys
    && (forall n :: n in s.closed && s.closed[n].ByReply? ==> s.closed[n].from == s.key[n])
    && (forall n :: n in s.result && s.result[n] ==> n in s.closed)
  }

  lemma StepKeepsInv<T>(s: PunchState<T>, step: Step<T>)
    requires Inv(s) && Enabled(s, step)
    ensures Inv(After(s, step))
  {
    match step
    case LeaveRoom =>
      forall n | n in s.pending.Values ensures n in s.key {
        var a :| a in s.pending && s.pending[a] == n;
      }
    case _ =>
  }

  /** No step closes a closed notification, and what closed one never changes. */
  lemma ClosesOpenOnes<T>(s: PunchState<T>, step: Step<T>)
    requires Inv(s) && Enabled(s, step)
    ensures Closes(s, step) !! s.closed.Keys
    ensures After(s, step).closed.Keys == s.closed.Keys + Closes(s, step)
    ensures forall n :: n in s.closed ==> After(s, step).closed[n] == s.closed[n]
  {
    forall n | n in s.pending.Values ensures n !in s.closed {
      var a :| a in s.pending && s.pending[a] == n;
    }
  }

  // ---------------------------------------------------------------- whole runs

  /** A run continuing from s. */
  ghost predicate RunFrom<T>(s: PunchState<T>, states: seq<PunchState<T>>, steps: seq<Step<T>>) {
    && |states| == |steps| + 1 && states[0] == s
    && forall i :: 0 <= i < |steps| ==> Enabled(states[i], steps[i]) && states[i + 1] == After(states[i], steps[i])
  }

  ghost predicate IsRun<T>(states: seq<PunchState<T>>, steps: seq<Step<T>>) {
    |states| > 0 && Start(states[0]) && RunFrom(states[0], states, steps)
  }

  lemma {:induction false} RunKeepsInv<T>(states: seq<PunchState<T>>, steps: seq<Step<T>>, n: nat)
    requires IsRun(states, steps) && n <= |steps|
    ensures Inv(states[n])
    decreases n
  {
    if n > 0 {
      RunKeepsInv(states, steps, n - 1);
      StepKeepsInv(states[n - 1], steps[n - 1]);
    }
  }

  lemma ClosedStays<T>(s: PunchState<T>, step: Step<T>, n: T)
    requires Inv(s) && Enabled(s, step) && n in s.closed
    ensures n in After(s, step).closed
  {
    ClosesOpenOnes(s, step);
    assert n in s.closed.Keys;
  }

  lemma {:induction false} ClosedForGood<T>(states: seq<PunchState<T>>, steps: seq<Step<T>>, i: nat, j: nat, n: T)
    requires IsRun(states, steps) && i <= j <= |steps| && n in states[i].closed
    ensures n in states[j].closed
    decreases j
  {
    if i < j {
      ClosedForGood(states, steps, i, j - 1, n);
      RunKeepsInv(states, steps, j - 1);
      ClosedStays(states[j - 1], steps[j - 1], n);
    }
  }

  /** A notification closed at one point of the run is not closed again at any later one. */
  lemma ClosedAtMostOnce<T>(states: seq<PunchState<T>>, steps: seq<Step<T>>, i: nat, j: nat, n: T)
    requires IsRun(states, steps) && i < j < |steps| && n in Closes(states[i], steps[i])
    ensures n in states[j].closed && n !in Closes(states[j], steps[j])
  {
    RunKeepsInv(states, steps, i);
    ClosesOpenOnes(states[i], steps[i]);
    ClosedForGood(states, steps, i + 1, j, n);
    RunKeepsInv(states, steps, j);
    ClosesOpenOnes(states[j], steps[j]);
  }

  /** An attempt reports success only if its own notification was closed, by a reply from exactly
      its address or by LeaveRoom; the step that closed it is in the run. */
  lemma {:induction false} SuccessHasCause<T>(states: seq<PunchState<T>>, steps: seq<Step<T>>, j: nat, n: T)
      returns (i: nat)
    requires IsRun(states, steps) && j <= |steps| && n in states[j].closed
    ensures i < j && n in Closes(states[i], steps[i])
    ensures n in states[j].key
    ensures match states[j].closed[n]
            case ByLeave => steps[i] == LeaveRoom
            case ByReply(from) => from == states[j].key[n] && steps[i] == Reply(from)
    decreases j
  {
    RunKeepsInv(states, steps, j - 1);
    RunKeepsInv(states, steps, j);
    ClosesOpenOnes(states[j - 1], steps[j - 1]);
    if n in states[j - 1].closed {
      i := SuccessHasCause(states, steps, j - 1, n);
      assert states[j].key[n] == states[j - 1].key[n];
    } else {
      i := j - 1;
    }
  }

  // ---------------------------------------------------------------- attempts that lose their entry

  ghost predicate Waiting<T>(s: PunchState<T>, n: T) {
    n in s.key && n !in s.result && n !in s.closed
  }

  /** Every attempt still waiting is in the table, so a reply can reach it. */
  ghost predicate AllReachable<T>(s: PunchState<T>) {
    forall n :: n in s.key && Waiting(s, n) ==> s.key[n] in s.pending && s.pending[s.key[n]] == n
  }

  /** A cleanup removes by address, whoever is registered there by then. It cuts off a waiting
      attempt exactly when the entry belongs to an attempt that has not returned; no other step
      ever does. */
  lemma StepKeepsReachableIff<T>(s: PunchState<T>, step: Step<T>)
    requires Inv(s) && Enabled(s, step) && AllReachable(s)
    ensures AllReachable(After(s, step)) <==>
            (step.Cleanup? && s.key[step.notif] in s.pending ==> s.pending[s.key[step.notif]] in s.result)
  {
    var s' := After(s, step);
    if step.Cleanup? && s.key[step.notif] in s.pending && s.pending[s.key[step.notif]] !in s.result {
      assert Waiting(s', s.pending[s.key[step.notif]]);
    } else {
      assert forall n :: n in s.key && Waiting(s, n) ==> n in s.pending.Values;
    }
  }

  /** An attempt that lost its entry can only fail, whatever replies still come. */
  lemma {:induction false} OrphanNeverSucceeds<T>(states: seq<PunchState<T>>, steps: seq<Step<T>>, i: nat, j: nat, n: T)
    requires IsRun(states, steps) && i <= j <= |steps|
    requires Waiting(states[i], n) && n !in states[i].pending.Values
    ensures n !in states[j].closed && n !in states[j].pending.Values
    ensures n in states[j].result ==> !states[j].result[n]
    ensures n in states[j].key
    decreases j
  {
    if i < j {
      OrphanNeverSucceeds(states, steps, i, j - 1, n);
      RunKeepsInv(states, steps, j - 1);
      ClosesOpenOnes(states[j - 1], steps[j - 1]);
      forall a | a in states[j].pending ensures states[j].pending[a] != n {
        assert a in states[j - 1].pending ==> states[j - 1].pending[a] != n;
      }
    }
  }

  /** It does happen: a reply lets a second attempt register before the first one cleans up, and
      the second attempt's own reply then finds nothing. */
  lemma LateCleanupOrphans<T>(addr: Endpoint, first: T, second: T)
      returns (states: seq<PunchState<T>>, steps: seq<Step<T>>)
    requires first != second
    ensures IsRun(states, steps) && Waiting(states[|steps|], second)
    ensures |steps| == 6 && steps[5] == Reply(addr) && states[6].key[second] == addr
    ensures second !in states[5].pending.Values && !AllReachable(states[5])
  {
    var s0: PunchState<T> := PunchState(map[], map[], map[], map[], {});
    var s1 := After(s0, Register(addr, first));
    var s2 := After(s1, Reply(addr));
    var s3 := After(s2, Register(addr, second));
    var s4 := After(s3, Return(first, true));
    var s5 := After(s4, Cleanup(first));
    var s6 := After(s5, Reply(addr));
    states := [s0, s1, s2, s3, s4, s5, s6];
    steps := [Register(addr, first), Reply(addr), Register(addr, second),
              Return(first, true), Cleanup(first), Reply(addr)];
    assert s5.pending == map[] && Waiting(s5, second);
  }

  /** An attempt is waiting at an address whose earlier attempt has yet to clean up. */
  ghost predicate Overlap<T>(s: PunchState<T>) {
    exists m, n :: m in s.key && n in s.key && m != n && s.key[m] == s.key[n] && m !in s.cleaned && Waiting(s, n)
  }

  /** The step registers an address again before an earlier attempt for it has cleaned up. */
  ghost predicate RegistersAgain<T>(s: PunchState<T>, step: Step<T>) {
    step.Register? && exists m :: m in s.key && s.key[m] == step.addr && m !in s.cleaned
  }

  lemma OverlapBeginsIff<T>(s: PunchState<T>, step: Step<T>)
    requires Inv(s) && Enabled(s, step) && AllReachable(s) && !Overlap(s)
    ensures Overlap(After(s, step)) <==> RegistersAgain(s, step)
    ensures AllReachable(After(s, step))
  {
    var s' := After(s, step);
    if RegistersAgain(s, step) {
      var m :| m in s.key && s.key[m] == step.addr && m !in s.cleaned;
      assert m in s'.key && step.notif in s'.key && Waiting(s', step.notif);
    }
    StepKeepsReachableIff(s, step);
  }

  ghost predicate AllSafe<T>(s: PunchState<T>) {
    AllReachable(s) && !Overlap(s)
  }

  lemma {:induction false} SafeWhileNoneAgain<T>(states: seq<PunchState<T>>, steps: seq<Step<T>>, n: nat)
    requires IsRun(states, steps) && n <= |steps|
    requires forall i :: 0 <= i < n ==> !RegistersAgain(states[i], steps[i])
    ensures AllSafe(states[n])
    decreases n
  {
    if n > 0 {
      SafeWhileNoneAgain(states, steps, n - 1);
      RunKeepsInv(states, steps, n - 1);
      OverlapBeginsIff(states[n - 1], steps[n - 1]);
    }
  }

  /** Over a whole run: every waiting attempt is in the table and none overlaps, at every point, exactly
      when no address is ever registered again before its earlier attempt has cleaned up. */
  lemma NoOverlapIff<T>(states: seq<PunchState<T>>, steps: seq<Step<T>>)
    requires IsRun(states, steps)
    ensures (forall i :: 0 <= i < |states| ==> AllSafe(states[i]))
       <==> (forall i :: 0 <= i < |steps| ==> !RegistersAgain(states[i], steps[i]))
  {
    if forall i :: 0 <= i < |steps| ==> !RegistersAgain(states[i], steps[i]) {
      forall i | 0 <= i < |states| ensures AllSafe(states[i]) {
        SafeWhileNoneAgain(states, steps, i);
      }
    } else {
      var i :| 0 <= i < |steps| && RegistersAgain(states[i], steps[i]);
      RunKeepsInv(states, steps, i);
      if AllSafe(states[i]) {
        OverlapBeginsIff(states[i], steps[i]);
        assert !AllSafe(states[i + 1]);
      }
    }
  }

  ghost predicate NoRegister<T>(steps: seq<Step<T>>) {
    forall i :: 0 <= i < |steps| ==> !steps[i].Register?
  }

  lemma {:induction false} StaysReachable<T>(s: PunchState<T>, states: seq<PunchState<T>>, steps: seq<Step<T>>, n: nat)
    requires RunFrom(s, states, steps) && NoRegister(steps) && n <= |steps|
    requires Inv(s) && AllReachable(s) && !Overlap(s)
    ensures Inv(states[n]) && AllReachable(states[n]) && !Overlap(states[n])
    decreases n
  {
    if n > 0 {
      StaysReachable(s, states, steps, n - 1);
      StepKeepsInv(states[n - 1], steps[n - 1]);
      OverlapBeginsIff(states[n - 1], steps[n - 1]);
    }
  }

  /** How an overlap cuts off the second attempt: the first one returns, then cleans up. */
  lemma OverlapCutsOff<T>(s: PunchState<T>) returns (states: seq<PunchState<T>>, steps: seq<Step<T>>)
    requires Inv(s) && AllReachable(s) && Overlap(s)
    ensures RunFrom(s, states, steps) && NoRegister(steps) && !AllReachable(states[|steps|])
  {
    var m, n :| m in s.key && n in s.key && m != n && s.key[m] == s.key[n] && m !in s.cleaned && Waiting(s, n);
    assert s.pending[s.key[n]] == n && !Waiting(s, m);
    if m in s.result {
      steps := [Cleanup(m)];
      states := [s, After(s, Cleanup(m))];
    } else {
      var returned := After(s, Return(m, true));
      steps := [Return(m, true), Cleanup(m)];
      states := [s, returned, After(returned, Cleanup(m))];
    }
    assert Waiting(states[|steps|], n) && s.key[n] !in states[|steps|].pending;
  }

  /** And only an overlap does: with every waiting attempt in the table, some of them can still be cut
      off without another registration exactly when one waits at an address whose earlier attempt has
      yet to clean up. */
  lemma CutOffPossibleIff<T(!new)>(s: PunchState<T>)
    requires Inv(s) && AllReachable(s)
    ensures Overlap(s) <==> exists states, steps ::
              RunFrom(s, states, steps) && NoRegister(steps) && !AllReachable(states[|steps|])
  {
    if Overlap(s) {
      var states, steps := OverlapCutsOff(s);
    } else {
      forall states, steps | RunFrom(s, states, steps) && NoRegister(steps) ensures AllReachable(states[|steps|]) {
        StaysReachable(s, states, steps, |steps|);
      }
    }
  }

  // ---------------------------------------------------------------- the locked sections themselves

  class Notification {
    var isClosed: bool

    constructor ()
      ensures !isClosed
    {
      isClosed := false;
    }

    /** Closing a closed Go channel panics. */
    method Close()
      requires !isClosed
      modifies this
      ensures isClosed
    {
      isClosed := true;
    }
  }

  ghost function Outside<T>(s: PunchState<T>, rest: set<Endpoint>): set<T> {
    set a | a in s.pending && a !in rest :: s.pending[a]
  }

  /** LeaveRoom half done: the addresses outside rest are closed and gone. */
  ghost function Closing<T>(s: PunchState<T>, rest: set<Endpoint>): PunchState<T> {
    s.(pending := s.pending - (s.pending.Keys - rest), closed := s.closed + ByLeaving(Outside(s, rest)))
  }

  lemma ClosingStep<T>(s: PunchState<T>, rest: set<Endpoint>, addr: Endpoint)
    requires Inv(s) && addr in rest && addr in s.pending
    ensures var mid, n := Closing(s, rest), s.pending[addr];
            && addr in mid.pending && mid.pending[addr] == n && n in s.key && n !in mid.closed
            && Closing(s, rest - {addr}) == mid.(pending := mid.pending - {addr}, closed := mid.closed[n := ByLeave])
  {
    var n := s.pending[addr];
    assert Outside(s, rest - {addr}) == Outside(s, rest) + {n};
    AddLeaving(s.closed, Outside(s, rest), n);
    assert s.pending - (s.pending.Keys - (rest - {addr})) == s.pending - (s.pending.Keys - rest) - {addr};
  }

  lemma AddLeaving<T>(closed: map<T, Cause>, notifs: set<T>, n: T)
    ensures closed + ByLeaving(notifs + {n}) == (closed + ByLeaving(notifs))[n := ByLeave]
  {
  }

  lemma ClosingEnds<T>(s: PunchState<T>)
    ensures Closing(s, s.pending.Keys) == s
    ensures Closing(s, {}) == After(s, LeaveRoom)
  {
    assert Outside(s, s.pending.Keys) == {} && Outside(s, {}) == s.pending.Values;
    assert s.closed + ByLeaving({}) == s.closed;
    assert s.pending - (s.pending.Keys - {}) == map[];
    assert s.pending - {} == s.pending;
  }

  class PunchTable {
    var pending: map<Endpoint, Notification>
    ghost var key: map<Notification, Endpoint>
    ghost var closed: map<Notification, Cause>
    ghost var result: map<Notification, bool>
    ghost var cleaned: set<Notification>

    ghost function View(): PunchState<Notification>
      reads this
    {
      PunchState(pending, key, closed, result, cleaned)
    }

    ghost predicate Valid()
      reads this, key.Keys
    {
      Inv(View()) && forall n :: n in key ==> (n.isClosed <==> n in closed)
    }

    constructor ()
      ensures Valid() && Start(View())
    {
      pending, key, closed, result, cleaned := map[], map[], map[], map[], {};
    }

    /** punchOne's first locked section: null when the address already has an attempt. */
    method RegisterAttempt(addr: Endpoint) returns (notif: Notification?)
      requires Valid()
      modifies this`pending, this`key
      ensures Valid()
      ensures notif == null <==> addr in old(pending)
      ensures notif == null ==> View() == old(View())
      ensures notif != null ==> fresh(notif) && View() == After(old(View()), Register(addr, notif))
    {
      if addr in pending {
        return null;
      }
      notif := new Notification();
      ghost var before := View();
      StepKeepsInv(before, Register(addr, notif));
      pending, key := pending[addr := notif], key[notif := addr];
    }

    method HandleReply(from: Endpoint) returns (known: bool)
      requires Valid()
      modifies this`pending, this`closed, if from in pending then {pending[from]} else {}
      ensures Valid() && View() == After(old(View()), Reply(from))
      ensures known <==> from in old(pending)
    {
      ghost var before := View();
      StepKeepsInv(before, Reply(from));
      known := from in pending;
      if known {
        var ch := pending[from];
        pending := pending - {from};
        ch.Close();
        closed := closed[ch := ByReply(from)];
      }
    }

    method CloseEntry(addr: Endpoint, ghost before: PunchState<Notification>, ghost rest: set<Endpoint>)
      requires Inv(before) && addr in rest && rest <= before.pending.Keys && View() == Closing(before, rest)
      requires forall n :: n in key ==> (n.isClosed <==> n in closed)
      modifies this`pending, this`closed, if addr in pending then {pending[addr]} else {}
      ensures View() == Closing(before, rest - {addr})
      ensures forall n :: n in key ==> (n.isClosed <==> n in closed)
    {
      ClosingStep(before, rest, addr);
      var ch := pending[addr];
      ch.Close();
      closed := closed[ch := ByLeave];
      pending := pending - {addr};
    }

    method CloseAllPending()
      requires Valid()
      modifies this`pending, this`closed, pending.Values
      ensures Valid() && View() == After(old(View()), LeaveRoom)
    {
      ghost var before := View();
      ClosingEnds(before);
      var rest := pending.Keys;
      while rest != {}
        invariant rest <= before.pending.Keys && View() == Closing(before, rest)
        invariant forall n :: n in key ==> (n.isClosed <==> n in closed)
        decreases rest
      {
        var k :| k in rest;
        assert pending[k] in before.pending.Values;
        CloseEntry(k, before, rest);
        rest := rest - {k};
      }
      StepKeepsInv(before, LeaveRoom);
    }

    ghost method Finish(notif: Notification, ok: bool)
      requires Valid() && Enabled(View(), Return(notif, ok))
      modifies this`result
      ensures Valid() && View() == After(old(View()), Return(notif, ok))
    {
      result := result[notif := ok];
    }

    /** punchOne's deferred section. */
    method DeferredDelete(addr: Endpoint, ghost notif: Notification)
      requires Valid() && Enabled(View(), Cleanup(notif)) && key[notif] == addr
      modifies this`pending, this`cleaned
      ensures Valid() && View() == After(old(View()), Cleanup(notif))
    {
      ghost var before := View();
      StepKeepsInv(before, Cleanup(notif));
      pending := pending - {addr};
      cleaned := cleaned + {notif};
    }
  }
}
