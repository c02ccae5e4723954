/** The pace of one hole-punching attempt (client/core/client.go, punchOne): fast probes for 3 s,
    slow ones after, 15 s in all. Timed model: the loop handles every event due at an instant, in
    any order, before time advances. Times are milliseconds since the attempt began. */
module PunchSchedule {
  import opened Vip

  const FAST_TICK: int := 200
  const SLOW_TICK: int := 1000
  const FAST_WINDOW: int := 3000
  const TIMEOUT: int := 15000

  datatype Event =
    | Fast(k: int)     // the k-th tick of the fast ticker
    | Slow(k: int)     // the k-th tick of the slow one
    | WindowOver
    | TimeOut
    | Notified         // the reply, or LeaveRoom
    | Cancelled        // another candidate won

  /** When a timer event falls due; the other two may come at any time. */
  function Due(e: Event): int {
    match e
    case Fast(k) => FAST_TICK * k
    case Slow(k) => SLOW_TICK * k
    case WindowOver => FAST_WINDOW
    case TimeOut => TIMEOUT
    case _ => 0
  }

  predicate IsTimer(e: Event) {
    match e
    case Fast(k) => k >= 1
    case Slow(k) => k >= 1
    case WindowOver => true
    case TimeOut => true
    case _ => false
  }

  predicate WellFormed(e: Event) {
    IsTimer(e) || e == Notified || e == Cancelled
  }

  /** A possible order of events: no timer event twice, and by the time one is handled all those due
      earlier have been. */
  ghost predicate Timely(events: seq<Event>) {
    && (forall i :: 0 <= i < |events| ==> WellFormed(events[i]))
    && (forall i, j :: 0 <= i < j < |events| && IsTimer(events[i]) ==> events[i] != events[j])
    && (forall i, e ::
          0 <= i < |events| && IsTimer(events[i]) && IsTimer(e) && Due(e) < Due(events[i]) ==> e in events[..i])
  }

  datatype Status = Waiting | Succeeded | TimedOut | Abandoned

  /** Where the attempt stands; probes are the ticks that sent one, besides the first. */
  datatype Attempt = Attempt(status: Status, fastPhase: bool, probes: seq<Event>)

  function Handle(a: Attempt, e: Event): Attempt {
    if a.status != Waiting then a
    else match e
      case Notified => a.(status := Succeeded)
      case TimeOut => a.(status := TimedOut)
      case WindowOver => a.(fastPhase := false)
      case Fast(_) => if a.fastPhase then a.(probes := a.probes + [e]) else a
      case Slow(_) => if a.fastPhase then a else a.(probes := a.probes + [e])
      case Cancelled => a.(status := Abandoned)
  }

  function Play(events: seq<Event>): Attempt {
    if |events| == 0 then Attempt(Waiting, true, [])
    else Handle(Play(events[..|events| - 1]), events[|events| - 1])
  }

  /** The wait loop: one probe at the start, then one per tick of the current phase until it ends. */
  method PunchOne(events: seq<Event>) returns (status: Status, sent: nat)
    ensures status == Play(events).status && sent == 1 + |Play(events).probes|
  {
    var fastPhase := true;
    sent := 1;
    for i := 0 to |events|
      invariant Play(events[..i]).status == Waiting && Play(events[..i]).fastPhase == fastPhase
      invariant sent == 1 + |Play(events[..i]).probes|
    {
      assert events[..i + 1][..i] == events[..i];
      match events[i] {
        case Notified => EndedStays(events, i + 1); return Succeeded, sent;
        case TimeOut => EndedStays(events, i + 1); return TimedOut, sent;
        case WindowOver => fastPhase := false;
        case Fast(_) => if fastPhase { sent := sent + 1; }
        case Slow(_) => if !fastPhase { sent := sent + 1; }
        case Cancelled => EndedStays(events, i + 1); return Abandoned, sent;
      }
    }
    assert events[..|events|] == events;
    status := Waiting;
  }

  lemma {:induction false} EndedStays(events: seq<Event>, i: nat)
    requires i <= |events| && Play(events[..i]).status != Waiting
    ensures Play(events) == Play(events[..i])
    decreases |events|
  {
    if i < |events| {
      assert events[..|events| - 1][..i] == events[..i];
      EndedStays(events[..|events| - 1], i);
    } else {
      assert events[..i] == events;
    }
  }

  lemma TimelyPrefix(events: seq<Event>, n: nat)
    requires Timely(events) && n <= |events|
    ensures Timely(events[..n])
  {
    forall i | 0 <= i < n ensures events[..n][..i] == events[..i] { }
  }

  lemma LastIsNew(events: seq<Event>)
    requires Timely(events) && |events| > 0 && IsTimer(events[|events| - 1])
    ensures events[|events| - 1] !in events[..|events| - 1]
  {
  }

  lemma DueBefore(events: seq<Event>, e: Event)
    requires Timely(events) && |events| > 0 && IsTimer(events[|events| - 1]) && IsTimer(e)
    requires Due(e) < Due(events[|events| - 1])
    ensures e in events[..|events| - 1]
  {
  }

  lemma NotYetDue(events: seq<Event>, e: Event)
    requires Timely(events) && |events| > 0 && IsTimer(events[|events| - 1])
    requires Due(events[|events| - 1]) < Due(e) && IsTimer(e)
    ensures e !in events[..|events| - 1]
  {
    var n := |events| - 1;
    forall i | 0 <= i < n ensures events[i] != e {
      if events[i] == e {
        assert events[n] in events[..i];
        LastIsNew(events);
        assert false;
      }
    }
  }

  /** The loop's own record of time: the fast phase lasts until the window is over, and while it is
      waiting neither ending has come. */
  lemma {:induction false} PhaseIsWindow(events: seq<Event>)
    requires Play(events).status == Waiting
    ensures Play(events).fastPhase <==> WindowOver !in events
    ensures TimeOut !in events && Notified !in events && Cancelled !in events
    decreases |events|
  {
    if |events| > 0 {
      var init, last := events[..|events| - 1], events[|events| - 1];
      PhaseIsWindow(init);
      assert events == init + [last];
    }
  }

  // ---------------------------------------------------------------- which ticks send

  predicate MaySend(e: Event) {
    (e.Fast? && 1 <= e.k <= 15) || (e.Slow? && 3 <= e.k <= 15)
  }

  predicate MustSend(e: Event) {
    (e.Fast? && 1 <= e.k <= 14) || (e.Slow? && 4 <= e.k <= 14)
  }

  lemma TickMaySend(events: seq<Event>)
    requires Timely(events) && |events| > 0
    requires var a := Play(events[..|events| - 1]); Handle(a, events[|events| - 1]).probes != a.probes
    ensures MaySend(events[|events| - 1])
  {
    var init, last := events[..|events| - 1], events[|events| - 1];
    PhaseIsWindow(init);
    if TIMEOUT < Due(last) { DueBefore(events, TimeOut); }
    if last.Fast? {
      if FAST_WINDOW < Due(last) { DueBefore(events, WindowOver); }
    } else {
      if Due(last) < FAST_WINDOW { NotYetDue(events, WindowOver); }
    }
  }

  lemma TickMustSend(events: seq<Event>)
    requires Timely(events) && |events| > 0 && MustSend(events[|events| - 1])
    requires Play(events[..|events| - 1]).status == Waiting
    ensures Play(events).probes == Play(events[..|events| - 1]).probes + [events[|events| - 1]]
  {
    var last := events[|events| - 1];
    PhaseIsWindow(events[..|events| - 1]);
    if last.Fast? {
      NotYetDue(events, WindowOver);
    } else {
      DueBefore(events, WindowOver);
    }
  }

  ghost predicate Distinct(s: seq<Event>) {
    forall i, j :: 0 <= i < j < |s| ==> s[i] != s[j]
  }

  /** Each tick sends at most once, only ticks of the right phase and before the end send, and while
      the attempt waits every such tick handled so far has sent. */
  lemma {:induction false} ProbesAreTicks(events: seq<Event>)
    requires Timely(events)
    ensures var probes := Play(events).probes;
            && Distinct(probes) && (forall e :: e in probes ==> MaySend(e) && e in events)
            && (Play(events).status == Waiting ==> forall e :: e in events && MustSend(e) ==> e in probes)
    decreases |events|
  {
    if |events| > 0 {
      var init, last := events[..|events| - 1], events[|events| - 1];
      var before, after := Play(init), Play(events);
      TimelyPrefix(events, |events| - 1);
      ProbesAreTicks(init);
      assert events == init + [last];
      if after.probes != before.probes {
        TickMaySend(events);
        LastIsNew(events);
        forall i, j | 0 <= i < j < |after.probes| ensures after.probes[i] != after.probes[j] {
          assert before.probes[i] in before.probes;
        }
      }
      if after.status == Waiting && MustSend(last) {
        TickMustSend(events);
      }
    }
  }

  // ---------------------------------------------------------------- counting

  function FastTicks(lo: int, hi: int): set<Event> {
    set k | lo <= k <= hi :: Fast(k)
  }

  function SlowTicks(lo: int, hi: int): set<Event> {
    set k | lo <= k <= hi :: Slow(k)
  }

  lemma {:induction false} TickCounts(lo: int, hi: int)
    requires lo <= hi + 1
    ensures |FastTicks(lo, hi)| == |SlowTicks(lo, hi)| == hi + 1 - lo
    decreases hi - lo
  {
    if lo == hi + 1 {
      assert FastTicks(lo, hi) == SlowTicks(lo, hi) == {};
    } else {
      TickCounts(lo, hi - 1);
      assert FastTicks(lo, hi) == FastTicks(lo, hi - 1) + {Fast(hi)};
      assert SlowTicks(lo, hi) == SlowTicks(lo, hi - 1) + {Slow(hi)};
    }
  }

  function Elements(s: seq<Event>): set<Event> {
    set e | e in s
  }

  lemma {:induction false} DistinctCount(s: seq<Event>)
    requires Distinct(s)
    ensures |Elements(s)| == |s|
    decreases |s|
  {
    if |s| > 0 {
      var init, last := s[..|s| - 1], s[|s| - 1];
      DistinctCount(init);
      assert s == init + [last];
      assert Elements(s) == Elements(init) + {last};
      assert last !in init;
    }
  }

  /** However the events fall, at most 29 probes are sent. */
  lemma AtMost29(events: seq<Event>)
    requires Timely(events)
    ensures 1 + |Play(events).probes| <= 29
  {
    var probes := Play(events).probes;
    ProbesAreTicks(events);
    DistinctCount(probes);
    TickCounts(1, 15);
    TickCounts(3, 15);
    var may := FastTicks(1, 15) + SlowTicks(3, 15);
    assert |may| == 28;
    SubsetCardinality(Elements(probes), may);
  }

  /** An attempt that neither succeeds nor is cancelled sends between 26 and 29 probes, the first and
      all ties at 3 s and 15 s included. */
  lemma TimedOutSendsEnough(events: seq<Event>)
    requires Timely(events) && Play(events).status == TimedOut
    ensures 26 <= 1 + |Play(events).probes| <= 29
  {
    AtMost29(events);
    var n := EndingAt(events);
    var before := events[..n];
    TimelyPrefix(events, n);
    ProbesAreTicks(before);
    DistinctCount(Play(before).probes);
    TickCounts(1, 14);
    TickCounts(4, 14);
    var must := FastTicks(1, 14) + SlowTicks(4, 14);
    assert |must| == 25;
    forall e | e in must ensures e in Play(before).probes {
      assert IsTimer(e) && Due(e) < Due(events[n]);
      assert e in events[..n];
    }
    SubsetCardinality(must, Elements(Play(before).probes));
  }

  /** The point at which a timed-out attempt met its timeout, still waiting. */
  lemma {:induction false} EndingAt(events: seq<Event>) returns (n: nat)
    requires Play(events).status == TimedOut
    ensures n < |events| && events[n] == TimeOut && Play(events[..n]).status == Waiting
    ensures Play(events).probes == Play(events[..n]).probes
    decreases |events|
  {
    var init := events[..|events| - 1];
    if Play(init).status == Waiting {
      n := |events| - 1;
    } else {
      n := EndingAt(init);
      assert init[..n] == events[..n];
    }
  }

  /** Once any timer event due after 15 s has been handled the attempt has ended. */
  lemma EndsByTimeout(events: seq<Event>, i: nat)
    requires Timely(events) && i < |events| && IsTimer(events[i]) && Due(events[i]) > 15000
    ensures Play(events).status != Waiting
    ensures Play(events) == Play(events[..i])
  {
    assert TimeOut in events[..i];
    if Play(events[..i]).status == Waiting {
      PhaseIsWindow(events[..i]);
    }
    EndedStays(events, i);
  }

  predicate IsEnd(e: Event) {
    e == Notified || e == TimeOut || e == Cancelled
  }

  function Verdict(e: Event): Status
    requires IsEnd(e)
  {
    match e
    case Notified => Succeeded
    case TimeOut => TimedOut
    case Cancelled => Abandoned
  }

  /** Event i is the first that ends the attempt. */
  ghost predicate FirstEnd(events: seq<Event>, i: int) {
    0 <= i < |events| && IsEnd(events[i]) && forall j :: 0 <= j < i ==> !IsEnd(events[j])
  }

  /** The outcome is that of the first reply (or leave), timeout or cancellation, whatever comes after;
      without any the attempt is still waiting. */
  lemma {:induction false} OutcomeIsFirstEnd(events: seq<Event>)
    ensures Play(events).status == Waiting <==> forall i :: 0 <= i < |events| ==> !IsEnd(events[i])
    ensures forall i :: FirstEnd(events, i) ==> Play(events).status == Verdict(events[i])
    decreases |events|
  {
    if |events| > 0 {
      var init := events[..|events| - 1];
      OutcomeIsFirstEnd(init);
      forall i | FirstEnd(events, i) ensures Play(events).status == Verdict(events[i]) {
        if i < |init| {
          assert FirstEnd(init, i);
        } else {
          assert forall j :: 0 <= j < |init| ==> !IsEnd(init[j]);
        }
      }
    }
  }

  // ---------------------------------------------------------------- both bounds are reached

  /** The events due at the n-th multiple of 200 ms; ties handled so as to send as much, or as little,
      as possible. */
  function Instant(n: nat, eager: bool): seq<Event> {
    if n == 15 then if eager then [Fast(15), WindowOver, Slow(3)] else [Slow(3), WindowOver, Fast(15)]
    else if n == 75 then if eager then [Fast(75), Slow(15), TimeOut] else [TimeOut, Fast(75), Slow(15)]
    else if n % 5 == 0 then [Fast(n), Slow(n / 5)]
    else [Fast(n)]
  }

  function UpTo(n: nat, eager: bool): seq<Event> {
    if n == 0 then [] else UpTo(n - 1, eager) + Instant(n, eager)
  }

  /** Exactly the timer events due by t. */
  ghost predicate Complete(events: seq<Event>, t: int) {
    forall e :: e in events <==> IsTimer(e) && Due(e) <= t
  }

  lemma InstantIsDue(n: nat, eager: bool)
    requires n > 0
    ensures forall e :: e in Instant(n, eager) <==> IsTimer(e) && FAST_TICK * (n - 1) < Due(e) <= FAST_TICK * n
    ensures Distinct(Instant(n, eager)) && forall e :: e in Instant(n, eager) ==> Due(e) == FAST_TICK * n
  {
    forall e | IsTimer(e) && FAST_TICK * (n - 1) < Due(e) <= FAST_TICK * n ensures e in Instant(n, eager) {
      if e.Slow? { assert n == 5 * e.k; }
    }
  }

  lemma TimelyExtend(events: seq<Event>, more: seq<Event>, t: int)
    requires Timely(events) && Complete(events, t) && Distinct(more)
    requires forall e :: e in more ==> IsTimer(e) && Due(e) > t
    requires forall e, f :: e in more && f in more ==> Due(e) == Due(f)
    requires forall e, f :: e in more && IsTimer(f) && Due(f) < Due(e) ==> Due(f) <= t
    ensures Timely(events + more)
  {
    var all := events + more;
    forall i, j | 0 <= i < j < |all| && IsTimer(all[i]) ensures all[i] != all[j] {
      if i < |events| <= j {
        assert all[i] in events && all[j] in more;
      }
    }
    forall i, e | 0 <= i < |all| && IsTimer(all[i]) && IsTimer(e) && Due(e) < Due(all[i]) ensures e in all[..i] {
      if i < |events| {
        assert all[..i] == events[..i];
      } else {
        assert all[i] in more && e in events;
        assert all[..|events|] == events && all[..i][..|events|] == events;
      }
    }
  }

  lemma {:induction false} UpToTimely(n: nat, eager: bool)
    ensures Timely(UpTo(n, eager)) && Complete(UpTo(n, eager), FAST_TICK * n)
    decreases n
  {
    if n > 0 {
      UpToTimely(n - 1, eager);
      InstantIsDue(n, eager);
      var before, now := UpTo(n - 1, eager), Instant(n, eager);
      forall e, f | e in now && IsTimer(f) && Due(f) < Due(e) ensures Due(f) <= FAST_TICK * (n - 1) {
        assert Due(f) > FAST_TICK * (n - 1) ==> f in now;
      }
      TimelyExtend(before, now, FAST_TICK * (n - 1));
    }
  }

  function HandleAll(a: Attempt, events: seq<Event>): Attempt
    decreases |events|
  {
    if |events| == 0 then a else HandleAll(Handle(a, events[0]), events[1..])
  }

  lemma {:induction false} PlayMore(events: seq<Event>, more: seq<Event>)
    ensures Play(events + more) == HandleAll(Play(events), more)
    decreases |more|
  {
    if |more| == 0 {
      assert events + more == events;
    } else {
      var longer := events + [more[0]];
      PlayMore(longer, more[1..]);
      assert longer[..|events|] == events;
      assert events + more == longer + more[1..];
    }
  }

  lemma HandleFew(a: Attempt, x: Event, y: Event, z: Event)
    ensures HandleAll(a, [x]) == Handle(a, x)
    ensures HandleAll(a, [x, y]) == Handle(Handle(a, x), y)
    ensures HandleAll(a, [x, y, z]) == Handle(Handle(Handle(a, x), y), z)
  {
    assert [x][1..] == [] && [y][1..] == [] && [z][1..] == [];
    assert [x, y][1..] == [y] && [y, z][1..] == [z] && [x, y, z][1..] == [y, z];
    assert HandleAll(Handle(a, x), [y]) == Handle(Handle(a, x), y);
    assert HandleAll(Handle(a, x), [y, z]) == HandleAll(Handle(Handle(a, x), y), [z]);
  }

  lemma PlayInstant(n: nat, eager: bool)
    requires n > 0
    ensures var a := Play(UpTo(n - 1, eager));
            Play(UpTo(n, eager)) ==
            if n == 15 then
              if eager then Handle(Handle(Handle(a, Fast(15)), WindowOver), Slow(3))
              else Handle(Handle(Handle(a, Slow(3)), WindowOver), Fast(15))
            else if n == 75 then
              if eager then Handle(Handle(Handle(a, Fast(75)), Slow(15)), TimeOut)
              else Handle(Handle(Handle(a, TimeOut), Fast(75)), Slow(15))
            else if n % 5 == 0 then Handle(Handle(a, Fast(n)), Slow(n / 5))
            else Handle(a, Fast(n))
  {
    var a, batch := Play(UpTo(n - 1, eager)), Instant(n, eager);
    PlayMore(UpTo(n - 1, eager), batch);
    HandleFew(a, batch[0], if |batch| > 1 then batch[1] else TimeOut, if |batch| > 2 then batch[2] else TimeOut);
  }

  lemma {:induction false} UpToSends(n: nat, eager: bool)
    requires n < 75
    ensures var a := Play(UpTo(n, eager));
            && a.status == Waiting && (a.fastPhase <==> n < 15)
            && |a.probes| == if n < 15 then n else 14 + (if eager then 2 else 0) + n / 5 - 3
    decreases n
  {
    if n > 0 {
      UpToSends(n - 1, eager);
      PlayInstant(n, eager);
    }
  }

  /** An attempt that times out after 29 probes, and one after 26. */
  lemma BoundsReached(eager: bool) returns (events: seq<Event>)
    ensures Timely(events) && Play(events).status == TimedOut
    ensures 1 + |Play(events).probes| == if eager then 29 else 26
  {
    var n := 75;
    events := UpTo(n, eager);
    UpToTimely(n, eager);
    UpToSends(n - 1, eager);
    PlayInstant(n, eager);
  }
}
