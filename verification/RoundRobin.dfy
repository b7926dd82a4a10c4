/** How long an equal waits (kernel/src/sched.rs, `on_timer_tick`, `rotate_same_level`,
    `yield_current`). */
module RoundRobin {
  import opened Objects
  import opened ReadyQueues
  import opened Scheduler
  import opened Division

  /** An RT thread runs at level `level` and nothing more urgent waits. */
  ghost predicate Serving(s: Sched, level: nat) {
    && s.Valid() && level < PRIORITY_LEVELS
    && s.current.Some? && s.current.value.cls == Rt && s.current.value.prio == level
    && forall l :: 0 <= l < level ==> s.ready[l] == []
  }

  /** The running thread and, behind it, its equals in waiting order. */
  function Line(s: Sched, level: nat): (r: seq<nat>)
    requires s.current.Some? && level < |s.ready|
    ensures r != []
  {
    [s.current.value.id] + s.ready[level]
  }

  function Turned(line: seq<nat>): (r: seq<nat>)
    requires line != []
    ensures |r| == |line|
  {
    line[1..] + [line[0]]
  }

  // ---- Ticks ---------------------------------------------------------------------------

  type Priority = p: nat | p < PRIORITY_LEVELS

  /** What may happen while an equal waits. */
  datatype Event = TimerTick | Admitted(t: nat, prio: Priority) | Woken(t: nat, prio: Priority) | Rescheduled

  predicate Calm(e: Event, level: nat) {
    e.Admitted? || e.Woken? ==> level <= e.prio
  }

  ghost predicate AllCalm(es: seq<Event>, level: nat) {
    forall i :: 0 <= i < |es| ==> Calm(es[i], level)
  }

  function Happens(s: Sched, e: Event): Sched
    requires s.Valid()
  {
    match e
    case TimerTick => Tick(s).0
    case Admitted(t, prio) => Admit(s, t, prio)
    case Woken(t, prio) => Wake(s, t, prio).0
    case Rescheduled => Reschedule(s).0
  }

  lemma TickTurns(s: Sched, level: nat)
    requires Serving(s, level)
    ensures var n := Tick(s).0;
            && Serving(n, level) && n.quantum == s.quantum
            && (s.ticks + 1 < s.quantum ==> Line(n, level) == Line(s, level) && n.ticks == s.ticks + 1)
            && (s.ticks + 1 == s.quantum ==> Line(n, level) == Turned(Line(s, level)) && n.ticks == 0)
  {
    TickKeeps(s);
    var cur := s.current.value;
    if s.ticks + 1 == s.quantum && s.ready[level] != [] {
      TopIs(s.ready, level);
      RotateIs(s.(ticks := 0), cur);
    }
  }

  lemma AdmitExtends(s: Sched, level: nat, t: nat, prio: nat)
    requires Serving(s, level) && level <= prio < PRIORITY_LEVELS
    ensures var n := Admit(s, t, prio);
            && Serving(n, level) && n.quantum == s.quantum && n.ticks == s.ticks
            && Line(s, level) <= Line(n, level)
            && Reschedule(n).0 == n
  {
  }

  lemma HappensTurns(s: Sched, level: nat, e: Event)
    requires Serving(s, level) && Calm(e, level)
    ensures var n := Happens(s, e);
            && Serving(n, level) && n.quantum == s.quantum
            && (e.TimerTick? && s.ticks + 1 == s.quantum ==> Line(n, level) == Turned(Line(s, level)) && n.ticks == 0)
            && (!(e.TimerTick? && s.ticks + 1 == s.quantum) ==>
                  Line(s, level) <= Line(n, level) && n.ticks == if e.TimerTick? then s.ticks + 1 else s.ticks)
  {
    match e
    case TimerTick => TickTurns(s, level);
    case Admitted(t, prio) => AdmitExtends(s, level, t, prio);
    case Woken(t, prio) => AdmitExtends(s, level, t, prio);
    case Rescheduled =>
  }

  function Ticks(es: seq<Event>): nat {
    if es == [] then 0 else Ticks(es[..|es| - 1]) + (if es[|es| - 1].TimerTick? then 1 else 0)
  }

  /** The state after the events. */
  function Plays(s: Sched, es: seq<Event>): (r: Sched)
    requires s.Valid()
    ensures r.Valid()
  {
    if es == [] then s
    else
      var before := Plays(s, es[..|es| - 1]);
      HappensValid(before, es[|es| - 1]);
      Happens(before, es[|es| - 1])
  }

  lemma HappensValid(s: Sched, e: Event)
    requires s.Valid()
    ensures Happens(s, e).Valid()
  {
    match e
    case TimerTick => TickKeeps(s);
    case Admitted(t, prio) =>
    case Woken(t, prio) => WakeKeeps(s, t, prio);
    case Rescheduled => RescheduleKeeps(s);
  }

  lemma DivNext(a: nat, q: nat)
    requires q > 0
    ensures a % q + 1 == q ==> (a + 1) / q == a / q + 1 && (a + 1) % q == 0
    ensures a % q + 1 < q ==> (a + 1) / q == a / q && (a + 1) % q == a % q + 1
  {
    if a % q + 1 == q {
      DivIs(a + 1, q, a / q + 1, 0);
    } else {
      DivIs(a + 1, q, a / q, a % q + 1);
    }
  }

  /** After `t` ticks from `s` to `n` the quantum was spent `r = (ticks + t) / quantum` times:
      the first `r` of the original line had their turn and the others stand at the head of
      the line in their order. */
  ghost predicate Placed(s: Sched, level: nat, t: nat, n: Sched)
    requires Serving(s, level)
  {
    && Serving(n, level) && n.quantum == s.quantum && n.ticks == (s.ticks + t) % s.quantum
    && Follows(Line(s, level), (s.ticks + t) / s.quantum, Line(n, level))
  }

  ghost predicate Follows(line: seq<nat>, r: int, now: seq<nat>) {
    0 <= r < |line| ==> line[r..] <= now
  }

  lemma FollowsTurned(line: seq<nat>, r: nat, now: seq<nat>)
    requires Follows(line, r, now) && now != []
    ensures Follows(line, r + 1, Turned(now))
  {
    if r + 1 < |line| {
      assert line[r..][1..] == line[r + 1..];
      PrefixTurned(line[r..], now);
    }
  }

  lemma PlacedNext(s: Sched, level: nat, t: nat, m: Sched, e: Event)
    requires Serving(s, level) && Calm(e, level) && Placed(s, level, t, m)
    ensures Placed(s, level, if e.TimerTick? then t + 1 else t, Happens(m, e))
  {
    HappensTurns(m, level, e);
    if e.TimerTick? {
      DivNext(s.ticks + t, s.quantum);
    }
    if e.TimerTick? && m.ticks + 1 == m.quantum {
      FollowsTurned(Line(s, level), (s.ticks + t) / s.quantum, Line(m, level));
    }
  }

  lemma {:induction false} LineAfter(s: Sched, level: nat, es: seq<Event>)
    requires Serving(s, level) && AllCalm(es, level)
    ensures Placed(s, level, Ticks(es), Plays(s, es))
  {
    if es == [] {
      DivIs(s.ticks, s.quantum, 0, s.ticks);
    } else {
      LineAfter(s, level, es[..|es| - 1]);
      PlacedNext(s, level, Ticks(es[..|es| - 1]), Plays(s, es[..|es| - 1]), es[|es| - 1]);
    }
  }

  lemma PrefixTurned(a: seq<nat>, b: seq<nat>)
    requires a != [] && a <= b
    ensures a[1..] <= Turned(b)
  {
  }

  lemma HeadFollows(line: seq<nat>, r: nat, now: seq<nat>)
    requires Follows(line, r, now) && r < |line|
    ensures now != [] && now[0] == line[r]
  {
    assert line[r..][0] == line[r];
  }

  lemma RunsAfter(s: Sched, level: nat, es: seq<Event>, r: nat)
    requires Serving(s, level) && AllCalm(es, level)
    requires r == (s.ticks + Ticks(es)) / s.quantum && r < |Line(s, level)|
    ensures Plays(s, es).current == Some(Running(Line(s, level)[r], level, Rt))
  {
    LineAfter(s, level, es);
    HeadFollows(Line(s, level), r, Line(Plays(s, es), level));
  }

  lemma DivNatural(a: nat, q: nat)
    requires q > 0
    ensures a / q >= 0
  {
  }

  /** The tick at which the `i`-th waiting equal is dispatched. */
  function DueTick(s: Sched, i: nat): int {
    (s.quantum - s.ticks) + i * s.quantum
  }

  lemma TurnsBy(s: Sched, i: nat, t: nat)
    requires s.quantum > 0
    ensures DueTick(s, i) <= t < DueTick(s, i) + s.quantum ==> (s.ticks + t) / s.quantum == i + 1
    ensures t < DueTick(s, i) ==> 0 <= (s.ticks + t) / s.quantum <= i
  {
    var a := s.ticks + t;
    DivNatural(a, s.quantum);
    assert DueTick(s, i) + s.ticks == s.quantum * (i + 1);
    if DueTick(s, i) <= t < DueTick(s, i) + s.quantum {
      DivIs(a, s.quantum, i + 1, a - s.quantum * (i + 1));
    } else if t < DueTick(s, i) {
      MulGrows(s.quantum, a / s.quantum - i);
      assert s.quantum * (a / s.quantum - i) == s.quantum * (a / s.quantum) - s.quantum * i;
      assert s.quantum * (i + 1) == s.quantum * i + s.quantum;
    }
  }

  /** The `i`-th waiting equal runs from its due tick on for exactly one quantum, however many
      equal or less urgent threads arrive. */
  lemma ServedInTurn(s: Sched, level: nat, es: seq<Event>, i: nat)
    requires Serving(s, level) && AllCalm(es, level) && i < |s.ready[level]|
    requires DueTick(s, i) <= Ticks(es) < DueTick(s, i) + s.quantum
    ensures Plays(s, es).current == Some(Running(s.ready[level][i], level, Rt))
  {
    TurnsBy(s, i, Ticks(es));
    RunsAfter(s, level, es, i + 1);
  }

  /** Before its due tick, one of those ahead of it in the line runs. */
  lemma NotServedEarly(s: Sched, level: nat, es: seq<Event>, i: nat)
    requires Serving(s, level) && AllCalm(es, level) && i < |s.ready[level]| && Ticks(es) < DueTick(s, i)
    ensures exists r :: 0 <= r <= i && Plays(s, es).current == Some(Running(Line(s, level)[r], level, Rt))
  {
    TurnsBy(s, i, Ticks(es));
    var r := (s.ticks + Ticks(es)) / s.quantum;
    RunsAfter(s, level, es, r);
    assert 0 <= r <= i;
  }

  // ---- Yields --------------------------------------------------------------------------

  lemma YieldTurns(s: Sched, level: nat)
    requires Serving(s, level)
    ensures var (n, d) := Yield(s);
            && Serving(n, level) && n.quantum == s.quantum && n.idle == s.idle && n.ticks == 0
            && Line(n, level) == Turned(Line(s, level))
            && (forall l :: 0 <= l < PRIORITY_LEVELS && l != level ==> n.ready[l] == s.ready[l])
            && (d == Continue(n.current.value.id) || d == Switch(s.Id(), n.current.value.id))
  {
    var cur := s.current.value;
    var q := Enqueued(s.ready, cur.id, cur.prio);
    assert q[level] == s.ready[level] + [cur.id];
    TopIs(q, level);
    YieldKeeps(s);
  }

  function YieldTimes(s: Sched, k: nat): (r: Sched)
    requires s.Valid()
    ensures r.Valid()
  {
    if k == 0 then s
    else
      YieldKeeps(YieldTimes(s, k - 1));
      Yield(YieldTimes(s, k - 1)).0
  }

  /** The line after `k` turns. */
  function Rotated(line: seq<nat>, k: nat): (r: seq<nat>)
    requires line != []
    ensures |r| == |line| && r[0] == line[k % |line|]
  {
    line[k % |line|..] + line[..k % |line|]
  }

  lemma RotatedNext(line: seq<nat>, k: nat)
    requires line != []
    ensures Rotated(line, k + 1) == Turned(Rotated(line, k))
  {
    var n := |line|;
    DivNext(k, n);
    if k % n + 1 == n {
      assert Rotated(line, k) == [line[n - 1]] + line[..n - 1];
    }
  }

  /** Equals take turns: after `k` yields the running thread is the `(k mod n)`-th of the
      original line of `n`, and nobody lost their place. */
  lemma {:induction false} YieldsRotate(s: Sched, level: nat, k: nat)
    requires Serving(s, level)
    ensures var n := YieldTimes(s, k);
            && Serving(n, level) && Line(n, level) == Rotated(Line(s, level), k)
            && n.current.value.id == Line(s, level)[k % |Line(s, level)|]
  {
    if k == 0 {
      assert 0 % |Line(s, level)| == 0;
    } else {
      YieldsRotate(s, level, k - 1);
      YieldTurns(YieldTimes(s, k - 1), level);
      RotatedNext(Line(s, level), k - 1);
    }
  }

  // ---- The measured ring ---------------------------------------------------------------

  function Peers(n: nat): (r: seq<nat>)
    ensures |r| == n
  {
    seq(n, i => i + 1)
  }

  /** The dispatcher of `n` equals, numbered from 1, after `k` yields. */
  function Ring(n: nat, k: nat): Sched
    requires n > 0
  {
    var line := Rotated(Peers(n), k);
    Sched(seq(PRIORITY_LEVELS, i => [])[63 := line[1..]], None, Some(Running(line[0], 63, Rt)), 1, 0)
  }

  lemma FirstPeer()
    ensures Ring(1, 0) == Sched(seq(PRIORITY_LEVELS, i => []), None, Some(Running(1, 63, Rt)), 1, 0)
  {
    assert Rotated(Peers(1), 0) == [1];
  }

  lemma MorePeers(n: nat)
    requires n > 0
    ensures Ring(n + 1, 0) == Admit(Ring(n, 0), n + 1, 63)
  {
    assert 0 % n == 0 && 0 % (n + 1) == 0;
    assert Rotated(Peers(n), 0) == Peers(n) && Rotated(Peers(n + 1), 0) == Peers(n + 1);
    assert Peers(n + 1) == Peers(n) + [n + 1];
    assert Peers(n + 1)[1..] == Peers(n)[1..] + [n + 1];
    assert Ring(n + 1, 0).ready == Admit(Ring(n, 0), n + 1, 63).ready;
  }

  lemma RingYields(n: nat, k: nat)
    requires n > 0
    ensures Ring(n, k).Valid()
    ensures var (r, d) := Yield(Ring(n, k));
            && r == Ring(n, k + 1)
            && (d == Continue((k + 1) % n + 1) || (d.Switch? && d.to == (k + 1) % n + 1))
  {
    var s := Ring(n, k);
    assert Line(s, 63) == Rotated(Peers(n), k);
    YieldTurns(s, 63);
    RotatedNext(Peers(n), k);
    var r := Yield(s).0;
    assert r.ready == Ring(n, k + 1).ready;
  }

  lemma RingTurns(n: nat)
    requires n > 0
    ensures Ring(n, n) == Ring(n, 0)
  {
    assert n % n == 0 && 0 % n == 0;
  }
}
