/** The order of the ready queues (kernel/src/sched.rs, `Dispatcher`): who joins a level, who is
    chosen from it, and that every level is first come, first served, preemptions included. */
module ReadyOrder {
  import opened Objects
  import opened ReadyQueues
  import opened Scheduler

  // ---- One scheduling point ------------------------------------------------------------

  /** Someone more urgent than `prio` waits, or is just woken. */
  ghost predicate Rivals(s: Sched, p: Point, prio: nat)
    requires |s.ready| == PRIORITY_LEVELS
  {
    (exists l :: 0 <= l < PRIORITY_LEVELS && l < prio && s.ready[l] != []) || (p.WakePoint? && p.prio < prio)
  }

  /** The running thread gives way and waits again: it yields, someone more urgent waits, or its
      quantum is spent and an equal waits. A thread that blocks does not wait. */
  ghost predicate GivesWay(s: Sched, p: Point)
    requires |s.ready| == PRIORITY_LEVELS
  {
    && s.current.Some? && s.current.value.cls == Rt && s.current.value.prio < PRIORITY_LEVELS && !p.BlockPoint?
    && (|| p.YieldPoint? || Rivals(s, p, s.current.value.prio)
        || (p.TickPoint? && s.ticks + 1 >= s.quantum && s.ready[s.current.value.prio] != []))
  }

  /** Who joins level `l`: the thread woken, then the one that gives way. */
  ghost function Joins(s: Sched, p: Point, l: nat): seq<nat>
    requires |s.ready| == PRIORITY_LEVELS
  {
    (if p.WakePoint? && p.prio == l then [p.t] else []) +
    (if GivesWay(s, p) && s.current.value.prio == l then [s.current.value.id] else [])
  }

  /** Every level with those who join it at its tail. */
  ghost function Lines(s: Sched, p: Point): (r: seq<seq<nat>>)
    requires |s.ready| == PRIORITY_LEVELS
    ensures |r| == PRIORITY_LEVELS && forall l :: 0 <= l < PRIORITY_LEVELS ==> r[l] == s.ready[l] + Joins(s, p, l)
  {
    seq(PRIORITY_LEVELS, l requires 0 <= l < PRIORITY_LEVELS => s.ready[l] + Joins(s, p, l))
  }

  /** Level `l` is the most urgent with anyone in it. */
  ghost predicate Foremost(q: seq<seq<nat>>, l: nat) {
    l < |q| && q[l] != [] && forall k :: 0 <= k < l ==> q[k] == []
  }

  /** Nobody who stays running is in the way. */
  ghost predicate Vacant(s: Sched, p: Point)
    requires |s.ready| == PRIORITY_LEVELS
  {
    s.current.None? || s.current.value.cls == IdleFloor || p.BlockPoint? || GivesWay(s, p)
  }

  /** The thread at the front of level `l` is chosen. */
  ghost predicate Chooses(s: Sched, p: Point, l: nat)
    requires |s.ready| == PRIORITY_LEVELS
  {
    Vacant(s, p) && Foremost(Lines(s, p), l)
  }

  function TicksAfter(s: Sched, p: Point): nat {
    if !p.TickPoint? || s.current.None? then s.ticks
    else if s.current.value.cls == Rt && s.ticks + 1 >= s.quantum then 0
    else if s.ticks == U32_MAX then U32_MAX else s.ticks + 1
  }

  /** What becomes of every level and of the running thread. */
  ghost predicate InOrder(s: Sched, p: Point, n: Sched)
    requires |s.ready| == PRIORITY_LEVELS
  {
    && |n.ready| == PRIORITY_LEVELS
    && (forall l :: 0 <= l < PRIORITY_LEVELS ==>
          n.ready[l] == if Chooses(s, p, l) then Lines(s, p)[l][1..] else Lines(s, p)[l])
    && (forall l :: 0 <= l < PRIORITY_LEVELS && Chooses(s, p, l) ==>
          n.current == Some(Running(Lines(s, p)[l][0], l, Rt)) && n.ticks == 0)
    && (!Vacant(s, p) ==> n.current == s.current && n.ticks == TicksAfter(s, p))
    && (Vacant(s, p) && NobodyWaits(Lines(s, p)) ==> FloorRuns(s, p, n))
  }

  ghost predicate NobodyWaits(q: seq<seq<nat>>) {
    forall l :: 0 <= l < |q| ==> q[l] == []
  }

  /** With nobody to choose the idle thread runs, if there is one; it goes on if it ran. */
  ghost predicate FloorRuns(s: Sched, p: Point, n: Sched) {
    if s.current.Some? && !p.BlockPoint? then n.current == s.current && n.ticks == TicksAfter(s, p)
    else
      match s.idle
      case None => n.current == None
      case Some(id) => n.current == Some(Running(id, LOWEST, IdleFloor)) && n.ticks == 0
  }

  lemma PickedInOrder(q: seq<seq<nat>>, l: nat)
    requires l < |q|
    ensures Foremost(q, l) <==> Top(q) == Some(l)
    ensures Picked(q)[l] == if Foremost(q, l) then q[l][1..] else q[l]
  {
    if Foremost(q, l) {
      TopIs(q, l);
    }
  }

  /** Whoever leaves the choice to the queues `Lines(s, p)` is in order. */
  lemma ChoiceInOrder(s: Sched, p: Point, n: Sched)
    requires |s.ready| == PRIORITY_LEVELS && Vacant(s, p)
    requires var q := Lines(s, p);
             match Top(q)
             case None => n.ready == q && FloorRuns(s, p, n)
             case Some(l) => n.ready == Picked(q) && n.current == Some(Running(q[l][0], l, Rt)) && n.ticks == 0
    ensures InOrder(s, p, n)
  {
    var q := Lines(s, p);
    forall l | 0 <= l < PRIORITY_LEVELS
      ensures Foremost(q, l) <==> Top(q) == Some(l)
      ensures Top(q).Some? ==> Picked(q)[l] == if Foremost(q, l) then q[l][1..] else q[l]
    {
      PickedInOrder(q, l);
    }
  }

  /** Nobody joins but those admitted, and the running thread stays. */
  lemma StaysInOrder(s: Sched, p: Point, n: Sched)
    requires |s.ready| == PRIORITY_LEVELS && !Vacant(s, p)
    requires n.ready == Lines(s, p) && n.current == s.current && n.ticks == TicksAfter(s, p)
    ensures InOrder(s, p, n)
  {
  }

  lemma OutrankedIs(s: Sched, cur: Running)
    requires |s.ready| == PRIORITY_LEVELS
    ensures Outranked(s, cur) <==>
            exists l :: 0 <= l < PRIORITY_LEVELS && (cur.cls == IdleFloor || l < cur.prio) && s.ready[l] != []
  {
    if l :| 0 <= l < PRIORITY_LEVELS && (cur.cls == IdleFloor || l < cur.prio) && s.ready[l] != [] {
      assert Top(s.ready).Some? && Top(s.ready).value <= l;
    }
  }

  /** Nobody joins. */
  lemma NobodyJoins(s: Sched, p: Point)
    requires |s.ready| == PRIORITY_LEVELS && !p.WakePoint? && !GivesWay(s, p)
    ensures Lines(s, p) == s.ready
  {
    forall l | 0 <= l < PRIORITY_LEVELS
      ensures Lines(s, p)[l] == s.ready[l]
    {
    }
  }

  /** Only the running thread joins. */
  lemma RunningJoins(s: Sched, p: Point)
    requires |s.ready| == PRIORITY_LEVELS && !p.WakePoint? && GivesWay(s, p)
    ensures Lines(s, p) == Enqueued(s.ready, s.current.value.id, s.current.value.prio)
  {
    var q := Enqueued(s.ready, s.current.value.id, s.current.value.prio);
    forall l | 0 <= l < PRIORITY_LEVELS
      ensures Lines(s, p)[l] == q[l]
    {
    }
  }

  /** The woken thread joins, and the running one if it gives way. */
  lemma WokenJoins(s: Sched, p: Point)
    requires |s.ready| == PRIORITY_LEVELS && p.WakePoint? && p.prio < PRIORITY_LEVELS
    ensures var q := Enqueued(s.ready, p.t, p.prio);
            Lines(s, p) == if GivesWay(s, p) then Enqueued(q, s.current.value.id, s.current.value.prio) else q
  {
    var q := Enqueued(s.ready, p.t, p.prio);
    var all := if GivesWay(s, p) then Enqueued(q, s.current.value.id, s.current.value.prio) else q;
    forall l | 0 <= l < PRIORITY_LEVELS
      ensures Lines(s, p)[l] == all[l]
    {
    }
  }

  /** A running thread is outranked exactly when it has a rival, and the floor when anyone waits. */
  lemma OutrankedRivals(s: Sched, p: Point, u: Sched)
    requires s.Valid() && s.current.Some? && |u.ready| == PRIORITY_LEVELS
    requires if p.WakePoint? then p.prio < PRIORITY_LEVELS && u.ready == Enqueued(s.ready, p.t, p.prio) else u.ready == s.ready
    ensures s.current.value.cls == Rt ==> (Outranked(u, s.current.value) <==> Rivals(s, p, s.current.value.prio))
    ensures s.current.value.cls == IdleFloor ==> (Outranked(u, s.current.value) <==> Top(u.ready).Some?)
  {
    var cur := s.current.value;
    OutrankedIs(u, cur);
    assert forall l :: 0 <= l < PRIORITY_LEVELS ==> (u.ready[l] != [] <==> s.ready[l] != [] || (p.WakePoint? && p.prio == l));
    if Rivals(s, p, cur.prio) {
      if p.WakePoint? && p.prio < cur.prio {
        assert u.ready[p.prio] != [];
      } else {
        var l :| 0 <= l < PRIORITY_LEVELS && l < cur.prio && s.ready[l] != [];
        assert u.ready[l] != [];
      }
    }
  }

  lemma RescheduleInOrder(s: Sched, p: Point, u: Sched)
    requires s.Valid() && (p.ReschedulePoint? || p.WakePoint? || (p.YieldPoint? && s.current.Some? && s.current.value.cls == IdleFloor))
    requires u == if p.WakePoint? then s.(ready := u.ready) else s
    requires p.WakePoint? ==> p.prio < PRIORITY_LEVELS && u.ready == Enqueued(s.ready, p.t, p.prio)
    ensures InOrder(s, p, Reschedule(u).0)
  {
    if p.WakePoint? {
      WokenJoins(s, p);
    } else if GivesWay(s, p) {
      RunningJoins(s, p);
    } else {
      NobodyJoins(s, p);
    }
    if s.current.None? {
      ChoiceInOrder(s, p, Reschedule(u).0);
    } else {
      OutrankedRivals(s, p, u);
      if Vacant(s, p) {
        ChoiceInOrder(s, p, Reschedule(u).0);
      } else {
        StaysInOrder(s, p, Reschedule(u).0);
      }
    }
  }

  lemma TickInOrder(s: Sched)
    requires s.Valid()
    ensures InOrder(s, TickPoint, Tick(s).0)
  {
    var p, n := TickPoint, Tick(s).0;
    if GivesWay(s, p) {
      RunningJoins(s, p);
    } else {
      NobodyJoins(s, p);
    }
    if s.current.None? {
      ChoiceInOrder(s, p, n);
    } else {
      var cur := s.current.value;
      OutrankedRivals(s, p, s);
      if Vacant(s, p) {
        if cur.cls == Rt && !Outranked(s, cur) {
          TopIs(s.ready, cur.prio);
          RotateIs(s.(ticks := 0), cur);
          TopIs(Lines(s, p), cur.prio);
        }
        ChoiceInOrder(s, p, n);
      } else {
        StaysInOrder(s, p, n);
      }
    }
  }

  lemma YieldInOrder(s: Sched)
    requires s.Valid()
    ensures InOrder(s, YieldPoint, Yield(s).0)
  {
    if s.current.None? {
      NobodyJoins(s, YieldPoint);
      ChoiceInOrder(s, YieldPoint, Yield(s).0);
    } else if s.current.value.cls == Rt {
      RunningJoins(s, YieldPoint);
      assert Lines(s, YieldPoint)[s.current.value.prio] != [];
      ChoiceInOrder(s, YieldPoint, Yield(s).0);
    } else {
      RescheduleInOrder(s, YieldPoint, s);
    }
  }

  lemma BlockInOrder(s: Sched)
    requires s.Valid()
    ensures InOrder(s, BlockPoint, Block(s).0)
  {
    NobodyJoins(s, BlockPoint);
    ChoiceInOrder(s, BlockPoint, Block(s).0);
  }

  /** At every scheduling point, from any state: each level is what it was with those who join it
      at its tail, without its front if that is chosen; the one chosen is the front of the most
      urgent level, and a thread that does not give way runs on. */
  lemma PointInOrder(s: Sched, p: Point)
    requires s.Valid() && (p.WakePoint? ==> p.prio < PRIORITY_LEVELS)
    ensures InOrder(s, p, At(s, p).0)
  {
    match p
    case TickPoint => TickInOrder(s);
    case ReschedulePoint => RescheduleInOrder(s, p, s);
    case WakePoint(t, prio) => RescheduleInOrder(s, p, Admit(s, t, prio));
    case YieldPoint => YieldInOrder(s);
    case BlockPoint => BlockInOrder(s);
  }

  /** A waiting thread takes over at once from one that did not ask to stop. */
  ghost predicate Preempted(s: Sched, p: Point)
    requires |s.ready| == PRIORITY_LEVELS
  {
    && s.current.Some? && !p.BlockPoint? && (p.YieldPoint? ==> s.current.value.cls == IdleFloor)
    && if s.current.value.cls == Rt then Rivals(s, p, s.current.value.prio)
       else p.WakePoint? || exists l :: 0 <= l < PRIORITY_LEVELS && s.ready[l] != []
  }

  lemma PreemptedIs(s: Sched, p: Point, u: Sched)
    requires s.Valid() && s.current.Some? && |u.ready| == PRIORITY_LEVELS && !p.BlockPoint? && (p.YieldPoint? ==> s.current.value.cls == IdleFloor)
    requires if p.WakePoint? then p.prio < PRIORITY_LEVELS && u.ready == Enqueued(s.ready, p.t, p.prio) else u.ready == s.ready
    ensures Outranked(u, s.current.value) <==> Preempted(s, p)
  {
    OutrankedRivals(s, p, u);
    if s.current.value.cls == IdleFloor {
      assert p.WakePoint? ==> u.ready[p.prio] != [];
      if l :| 0 <= l < PRIORITY_LEVELS && s.ready[l] != [] {
        assert u.ready[l] != [];
      }
    }
  }

  /** The decision says who runs: nobody; the same thread, unless a namesake of it took over; or a
      switch between the two. */
  lemma DecisionIs(s: Sched, p: Point)
    requires s.Valid() && (p.WakePoint? ==> p.prio < PRIORITY_LEVELS)
    ensures var (n, d) := At(s, p);
            match n.current
            case None => d == NothingToRun
            case Some(r) => d == if s.Id() == n.Id() && !Preempted(s, p) then Continue(r.id) else Switch(s.Id(), r.id)
  {
    if s.current.Some? && !p.BlockPoint? && (p.YieldPoint? ==> s.current.value.cls == IdleFloor) {
      PreemptedIs(s, p, if p.WakePoint? then Admit(s, p.t, p.prio) else s);
    }
    PointKeeps(s, p);
  }

  // ---- Whole runs ----------------------------------------------------------------------

  predicate AllFair(ps: seq<Point>) {
    forall i :: 0 <= i < |ps| && ps[i].WakePoint? ==> ps[i].prio < PRIORITY_LEVELS
  }

  function Play(s: Sched, ps: seq<Point>): (r: Sched)
    requires s.Valid() && AllFair(ps)
    ensures r.Valid()
    decreases |ps|
  {
    if ps == [] then s
    else
      PointKeeps(s, ps[0]);
      Play(At(s, ps[0]).0, ps[1..])
  }

  /** Everyone who joins level `l` during the run, in order. */
  ghost function Joined(s: Sched, ps: seq<Point>, l: nat): seq<nat>
    requires s.Valid() && AllFair(ps)
    decreases |ps|
  {
    if ps == [] then []
    else
      PointKeeps(s, ps[0]);
      Joins(s, ps[0], l) + Joined(At(s, ps[0]).0, ps[1..], l)
  }

  /** Who is chosen from level `l` at a point: whoever runs then. */
  ghost function Leaves(s: Sched, p: Point, l: nat): seq<nat>
    requires s.Valid() && (p.WakePoint? ==> p.prio < PRIORITY_LEVELS)
  {
    if Chooses(s, p, l) && At(s, p).0.current.Some? then [At(s, p).0.current.value.id] else []
  }

  /** Everyone chosen from level `l` during the run, in order. */
  ghost function Chosen(s: Sched, ps: seq<Point>, l: nat): seq<nat>
    requires s.Valid() && AllFair(ps)
    decreases |ps|
  {
    if ps == [] then []
    else
      PointKeeps(s, ps[0]);
      Leaves(s, ps[0], l) + Chosen(At(s, ps[0]).0, ps[1..], l)
  }

  lemma PointIsQueue(s: Sched, p: Point, l: nat)
    requires s.Valid() && (p.WakePoint? ==> p.prio < PRIORITY_LEVELS) && l < PRIORITY_LEVELS
    ensures |At(s, p).0.ready| == PRIORITY_LEVELS
    ensures s.ready[l] + Joins(s, p, l) == Leaves(s, p, l) + At(s, p).0.ready[l]
  {
    PointInOrder(s, p);
    OrderIsQueue(s, p, At(s, p).0, l);
  }

  lemma OrderIsQueue(s: Sched, p: Point, n: Sched, l: nat)
    requires |s.ready| == PRIORITY_LEVELS && l < PRIORITY_LEVELS && InOrder(s, p, n)
    ensures s.ready[l] + Joins(s, p, l) == (if Chooses(s, p, l) && n.current.Some? then [n.current.value.id] else []) + n.ready[l]
  {
    var line := s.ready[l] + Joins(s, p, l);
    assert line == Lines(s, p)[l];
    if Chooses(s, p, l) {
      FrontAndRest(line, n.current.value.id, n.ready[l]);
    } else {
      NoneAndRest(line, n.ready[l]);
    }
  }

  lemma FrontAndRest(line: seq<nat>, id: nat, rest: seq<nat>)
    requires line != [] && line[0] == id && rest == line[1..]
    ensures line == [id] + rest
  {
  }

  lemma NoneAndRest(line: seq<nat>, rest: seq<nat>)
    requires rest == line
    ensures line == [] + rest
  {
  }

  /** Over any run of scheduling points every level is a queue: those who waited and those who
      joined, in order, are those who were chosen and those who still wait. */
  lemma {:induction false} LevelsAreQueues(s: Sched, ps: seq<Point>, l: nat)
    requires s.Valid() && AllFair(ps) && l < PRIORITY_LEVELS
    ensures s.ready[l] + Joined(s, ps, l) == Chosen(s, ps, l) + Play(s, ps).ready[l]
    decreases |ps|
  {
    if ps == [] {
      assert s.ready[l] + [] == [] + s.ready[l];
    } else {
      PointKeeps(s, ps[0]);
      PointIsQueue(s, ps[0], l);
      var n := At(s, ps[0]).0;
      LevelsAreQueues(n, ps[1..], l);
      Regroup(s.ready[l], Joins(s, ps[0], l), Joined(n, ps[1..], l), Leaves(s, ps[0], l), n.ready[l], Chosen(n, ps[1..], l), Play(n, ps[1..]).ready[l]);
    }
  }

  lemma Regroup(a: seq<nat>, b: seq<nat>, c: seq<nat>, front: seq<nat>, rest: seq<nat>, d: seq<nat>, e: seq<nat>)
    requires a + b == front + rest && rest + c == d + e
    ensures a + (b + c) == (front + d) + e
  {
    assert a + (b + c) == (a + b) + c == (front + rest) + c == front + (rest + c) == (front + d) + e;
  }

  /** The `i`-th of `waited` is the `i`-th of `chosen`, or still waits behind as many as are left. */
  predicate KeepsPlace(waited: seq<nat>, chosen: seq<nat>, waits: seq<nat>, i: nat)
    requires i < |waited|
  {
    if i < |chosen| then chosen[i] == waited[i] else i - |chosen| < |waits| && waits[i - |chosen|] == waited[i]
  }

  /** So whoever is ahead at a level runs first, however often either is preempted. */
  lemma AheadRunsFirst(s: Sched, ps: seq<Point>, l: nat, i: nat)
    requires s.Valid() && AllFair(ps) && l < PRIORITY_LEVELS && i < |s.ready[l]|
    ensures KeepsPlace(s.ready[l], Chosen(s, ps, l), Play(s, ps).ready[l], i)
  {
    LevelsAreQueues(s, ps, l);
    SamePlace(s.ready[l], Joined(s, ps, l), Chosen(s, ps, l), Play(s, ps).ready[l], i);
  }

  lemma SamePlace(a: seq<nat>, b: seq<nat>, c: seq<nat>, d: seq<nat>, i: nat)
    requires a + b == c + d && i < |a|
    ensures KeepsPlace(a, c, d, i)
  {
    assert (a + b)[i] == a[i] && |a| + |b| == |c| + |d|;
  }
}
