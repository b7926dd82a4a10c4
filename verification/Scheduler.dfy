/** The dispatcher (kernel/src/sched.rs, `Dispatcher`): what a scheduling point does to the
    ready queues and the running thread, and the properties of every scheduling point. */
module Scheduler {
  import opened Objects
  import opened ReadyQueues

  const U32_MAX := 0xFFFF_FFFF
  const LOWEST := 255

  datatype ClassId = Rt | IdleFloor
  datatype Running = Running(id: nat, prio: nat, cls: ClassId)
  datatype Decision = NothingToRun | Continue(id: nat) | Switch(from: Option<nat>, to: nat)

  /** The dispatcher as a value. */
  datatype Sched = Sched(ready: seq<seq<nat>>, idle: Option<nat>, current: Option<Running>, quantum: nat, ticks: nat) {
    ghost predicate Valid() {
      && |ready| == PRIORITY_LEVELS && 1 <= quantum <= U32_MAX && ticks <= U32_MAX
      && (current.Some? ==> current.value.prio < PRIORITY_LEVELS && (current.value.cls == Rt ==> ticks < quantum))
    }

    function Id(): Option<nat> {
      match current
      case None => None
      case Some(r) => Some(r.id)
    }
  }

  // ---- Scheduling points ---------------------------------------------------------------

  /** `dispatch_after_removed`: the front of the most urgent level, else the idle floor. */
  function Dispatch(s: Sched, from: Option<nat>): (Sched, Decision) {
    match Top(s.ready)
    case Some(level) =>
      var to := s.ready[level][0];
      (s.(ready := Picked(s.ready), current := Some(Running(to, level, Rt)), ticks := 0),
       if from == Some(to) then Continue(to) else Switch(from, to))
    case None =>
      match s.idle
      case Some(to) =>
        (s.(current := Some(Running(to, LOWEST, IdleFloor)), ticks := 0),
         if from == Some(to) then Continue(to) else Switch(from, to))
      case None => (s, NothingToRun)
  }

  /** The running thread goes back to the tail of its level, unless it is the idle floor. */
  function Requeued(s: Sched, cur: Running): seq<seq<nat>>
    requires |s.ready| == PRIORITY_LEVELS && cur.prio < PRIORITY_LEVELS
  {
    if cur.cls == Rt then Enqueued(s.ready, cur.id, cur.prio) else s.ready
  }

  function Preempt(s: Sched, cur: Running): (Sched, Decision)
    requires |s.ready| == PRIORITY_LEVELS && cur.prio < PRIORITY_LEVELS && Top(s.ready).Some?
  {
    var q := Requeued(s, cur);
    assert cur.cls == Rt ==> q[cur.prio] != [];
    var level := Top(q).value;
    (s.(ready := Picked(q), current := Some(Running(q[level][0], level, Rt)), ticks := 0), Switch(Some(cur.id), q[level][0]))
  }

  function Rotate(s: Sched, cur: Running): (Sched, Decision)
    requires |s.ready| == PRIORITY_LEVELS && cur.prio < PRIORITY_LEVELS
  {
    var q := Enqueued(s.ready, cur.id, cur.prio);
    assert q[cur.prio] != [];
    var to := q[Top(q).value][0];
    (s.(ready := Picked(q), current := Some(Running(to, cur.prio, Rt))),
     if to == cur.id then Continue(cur.id) else Switch(Some(cur.id), to))
  }

  /** A ready thread takes over from `cur` at once. */
  predicate Outranked(s: Sched, cur: Running) {
    Top(s.ready).Some? && (cur.cls == IdleFloor || Top(s.ready).value < cur.prio)
  }

  function Reschedule(s: Sched): (Sched, Decision)
    requires s.Valid()
  {
    match s.current
    case None => Dispatch(s, None)
    case Some(cur) => if Outranked(s, cur) then Preempt(s, cur) else (s, Continue(cur.id))
  }

  function Tick(s: Sched): (Sched, Decision)
    requires s.Valid()
  {
    var t := s.(ticks := if s.ticks == U32_MAX then U32_MAX else s.ticks + 1);
    match s.current
    case None => Dispatch(t, None)
    case Some(cur) =>
      if Outranked(s, cur) then Preempt(s, cur)
      else if cur.cls == Rt && t.ticks >= s.quantum then
        if Top(s.ready) == Some(cur.prio) then Rotate(s.(ticks := 0), cur) else (s.(ticks := 0), Continue(cur.id))
      else (t, Continue(cur.id))
  }

  function Admit(s: Sched, t: nat, prio: nat): Sched
    requires prio < |s.ready|
  {
    s.(ready := Enqueued(s.ready, t, prio))
  }

  function Wake(s: Sched, t: nat, prio: nat): (Sched, Decision)
    requires s.Valid() && prio < PRIORITY_LEVELS
  {
    Reschedule(Admit(s, t, prio))
  }

  function Yield(s: Sched): (Sched, Decision)
    requires s.Valid()
  {
    match s.current
    case None => Dispatch(s, None)
    case Some(cur) =>
      if cur.cls == Rt then Dispatch(Admit(s, cur.id, cur.prio), Some(cur.id)) else Reschedule(s)
  }

  function Block(s: Sched): (Sched, Decision) {
    Dispatch(s.(current := None, ticks := 0), s.Id())
  }

  // ---- What every scheduling point promises --------------------------------------------

  datatype Point = TickPoint | ReschedulePoint | WakePoint(t: nat, prio: nat) | YieldPoint | BlockPoint

  function At(s: Sched, p: Point): (Sched, Decision)
    requires s.Valid() && (p.WakePoint? ==> p.prio < PRIORITY_LEVELS)
  {
    match p
    case TickPoint => Tick(s)
    case ReschedulePoint => Reschedule(s)
    case WakePoint(t, prio) => Wake(s, t, prio)
    case YieldPoint => Yield(s)
    case BlockPoint => Block(s)
  }

  /** No ready thread is more urgent than the running one; the floor runs only when nothing
      is ready, and nothing runs only when there is no floor either. */
  ghost predicate Settled(s: Sched)
    requires |s.ready| == PRIORITY_LEVELS
  {
    match s.current
    case None => (forall l :: 0 <= l < PRIORITY_LEVELS ==> s.ready[l] == []) && s.idle.None?
    case Some(Running(_, prio, Rt)) => forall l :: 0 <= l < PRIORITY_LEVELS && l < prio ==> s.ready[l] == []
    case Some(Running(_, _, IdleFloor)) => forall l :: 0 <= l < PRIORITY_LEVELS ==> s.ready[l] == []
  }

  /** The threads of one level, waiting or running. */
  function Level(s: Sched, l: nat): multiset<nat>
    requires l < |s.ready|
  {
    multiset(s.ready[l]) +
    match s.current
    case None => multiset{}
    case Some(r) => if r.cls == Rt && r.prio == l then multiset{r.id} else multiset{}
  }

  ghost predicate SameThreads(s: Sched, n: Sched) {
    |n.ready| == |s.ready| && forall l :: 0 <= l < |s.ready| ==> Level(n, l) == Level(s, l)
  }

  ghost predicate OneMore(s: Sched, t: nat, prio: nat, n: Sched) {
    && |n.ready| == |s.ready|
    && forall l :: 0 <= l < |s.ready| ==> Level(n, l) == if l == prio then Level(s, l) + multiset{t} else Level(s, l)
  }

  /** Only those waiting are left. */
  ghost predicate WithoutRunning(s: Sched, n: Sched) {
    |n.ready| == |s.ready| && forall l :: 0 <= l < |s.ready| ==> Level(n, l) == multiset(s.ready[l])
  }

  /** A wake adds exactly the woken thread, a block takes exactly the running one away, and
      any other point keeps every thread at its level. */
  ghost predicate Conserves(s: Sched, p: Point, n: Sched) {
    && n.idle == s.idle && n.quantum == s.quantum
    && match p
       case WakePoint(t, prio) => OneMore(s, t, prio, n)
       case BlockPoint => WithoutRunning(s, n)
       case _ => SameThreads(s, n)
  }

  /** The decision names the thread that ran and the one that runs, and a thread that is
      switched to has its whole quantum before it. */
  ghost predicate Truthful(s: Sched, n: Sched, d: Decision) {
    match d
    case NothingToRun => n.current.None?
    case Continue(id) => s.Id() == Some(id) && n.Id() == Some(id)
    case Switch(from, to) => s.Id() == from && n.Id() == Some(to) && n.ticks == 0
  }

  lemma PickedLevels(q: seq<seq<nat>>)
    requires Top(q).Some?
    ensures var t := Top(q).value;
            && multiset(q[t]) == multiset(Picked(q)[t]) + multiset{q[t][0]}
            && (forall l :: 0 <= l < |q| && l != t ==> Picked(q)[l] == q[l])
            && (forall l :: 0 <= l < t ==> Picked(q)[l] == [])
  {
    var t := Top(q).value;
    assert q[t] == [q[t][0]] + q[t][1..];
  }

  lemma DispatchKeeps(s: Sched, from: Option<nat>)
    requires s.Valid()
    requires s.current.None? || Top(s.ready).Some?
    ensures var (n, d) := Dispatch(s, from);
            && n.Valid() && Settled(n) && n.idle == s.idle && n.quantum == s.quantum
            && (forall l :: 0 <= l < PRIORITY_LEVELS ==> Level(n, l) == multiset(s.ready[l]))
            && (d.NothingToRun? ==> n.current.None?)
            && (d.Continue? ==> from == Some(d.id) && n.Id() == Some(d.id))
            && (d.Switch? ==> d.from == from && n.Id() == Some(d.to) && n.ticks == 0)
  {
    if Top(s.ready).Some? {
      FrontRuns(s.ready, Dispatch(s, from).0);
    }
  }

  lemma EnqueuedLevels(q: seq<seq<nat>>, t: nat, prio: nat)
    requires prio < |q|
    ensures multiset(Enqueued(q, t, prio)[prio]) == multiset(q[prio]) + multiset{t}
    ensures forall l :: 0 <= l < |q| && l != prio ==> Enqueued(q, t, prio)[l] == q[l]
  {
  }

  /** Requeueing moves the running thread among the waiting ones of its level. */
  lemma RequeuedLevel(s: Sched, cur: Running, l: nat)
    requires s.Valid() && s.current == Some(cur) && l < PRIORITY_LEVELS
    ensures multiset(Requeued(s, cur)[l]) == Level(s, l)
  {
    EnqueuedLevels(s.ready, cur.id, cur.prio);
  }

  /** The front of the queues `q` runs: nobody waiting is more urgent, and every level has
      the threads it had in `q`. */
  lemma FrontRuns(q: seq<seq<nat>>, n: Sched)
    requires |q| == PRIORITY_LEVELS && Top(q).Some? && n.ready == Picked(q)
    requires n.current == Some(Running(q[Top(q).value][0], Top(q).value, Rt))
    ensures Settled(n) && forall l :: 0 <= l < PRIORITY_LEVELS ==> Level(n, l) == multiset(q[l])
  {
    PickedLevels(q);
  }

  lemma PreemptKeeps(s: Sched, cur: Running)
    requires s.Valid() && s.current == Some(cur) && Outranked(s, cur)
    ensures var (n, d) := Preempt(s, cur);
            && n.Valid() && Settled(n) && Conserves(s, ReschedulePoint, n) && Truthful(s, n, d)
            && n.current.value.prio == Top(s.ready).value && n.ticks == 0
  {
    var q := Requeued(s, cur);
    var n := Preempt(s, cur).0;
    TopIs(q, Top(s.ready).value);
    FrontRuns(q, n);
    forall l | 0 <= l < PRIORITY_LEVELS
      ensures Level(n, l) == Level(s, l)
    {
      RequeuedLevel(s, cur, l);
    }
  }

  /** With a peer waiting, the front peer runs and the thread that ran joins the tail. */
  lemma RotateIs(s: Sched, cur: Running)
    requires s.Valid() && cur.prio < PRIORITY_LEVELS && Top(s.ready) == Some(cur.prio)
    ensures var n := Rotate(s, cur).0;
            && n.current == Some(Running(s.ready[cur.prio][0], cur.prio, Rt))
            && n.ready == s.ready[cur.prio := s.ready[cur.prio][1..] + [cur.id]]
  {
    var q := Enqueued(s.ready, cur.id, cur.prio);
    TopIs(q, cur.prio);
    assert q[cur.prio][1..] == s.ready[cur.prio][1..] + [cur.id];
  }

  lemma RotateSame(s: Sched, cur: Running)
    requires s.Valid() && s.current == Some(cur) && cur.cls == Rt && Top(s.ready) == Some(cur.prio)
    ensures Settled(Rotate(s, cur).0) && SameThreads(s, Rotate(s, cur).0)
  {
    var q := Requeued(s, cur);
    TopIs(q, cur.prio);
    FrontRuns(q, Rotate(s, cur).0);
    forall l | 0 <= l < PRIORITY_LEVELS
      ensures Level(Rotate(s, cur).0, l) == Level(s, l)
    {
      RequeuedLevel(s, cur, l);
    }
  }

  lemma RotateKeeps(s: Sched, cur: Running)
    requires s.Valid() && s.current == Some(cur) && cur.cls == Rt && Top(s.ready) == Some(cur.prio) && s.ticks == 0
    ensures var (n, d) := Rotate(s, cur); n.Valid() && Settled(n) && Conserves(s, TickPoint, n) && Truthful(s, n, d)
  {
    RotateIs(s, cur);
    RotateSame(s, cur);
  }

  lemma RescheduleKeeps(s: Sched)
    requires s.Valid()
    ensures var (n, d) := Reschedule(s); n.Valid() && Settled(n) && Conserves(s, ReschedulePoint, n) && Truthful(s, n, d)
  {
    match s.current
    case None => DispatchKeeps(s, None);
    case Some(cur) => if Outranked(s, cur) { PreemptKeeps(s, cur); }
  }

  /** Nobody outranks the running thread, and it goes on with `ticks` on its quantum. */
  lemma StayKeeps(s: Sched, cur: Running, ticks: nat)
    requires s.Valid() && s.current == Some(cur) && !Outranked(s, cur)
    requires ticks <= U32_MAX && (cur.cls == Rt ==> ticks < s.quantum)
    ensures var n := s.(ticks := ticks); n.Valid() && Settled(n) && Conserves(s, TickPoint, n) && Truthful(s, n, Continue(cur.id))
  {
  }

  lemma FreshKeeps(s: Sched, ticks: nat)
    requires s.Valid() && s.current.None? && ticks <= U32_MAX
    ensures var (n, d) := Dispatch(s.(ticks := ticks), None);
            n.Valid() && Settled(n) && Conserves(s, TickPoint, n) && Truthful(s, n, d)
  {
    DispatchKeeps(s.(ticks := ticks), None);
  }

  lemma TickRotates(s: Sched, cur: Running)
    requires s.Valid() && s.current == Some(cur) && cur.cls == Rt && Top(s.ready) == Some(cur.prio)
    ensures var (n, d) := Rotate(s.(ticks := 0), cur);
            n.Valid() && Settled(n) && Conserves(s, TickPoint, n) && Truthful(s, n, d)
  {
    var t := s.(ticks := 0);
    RotateKeeps(t, cur);
    var n := Rotate(t, cur).0;
    forall l | 0 <= l < PRIORITY_LEVELS
      ensures Level(n, l) == Level(s, l)
    {
      assert Level(n, l) == Level(t, l);
    }
  }

  lemma TickKeeps(s: Sched)
    requires s.Valid()
    ensures var (n, d) := Tick(s); n.Valid() && Settled(n) && Conserves(s, TickPoint, n) && Truthful(s, n, d)
  {
    var t := s.(ticks := if s.ticks == U32_MAX then U32_MAX else s.ticks + 1);
    match s.current
    case None => FreshKeeps(s, t.ticks);
    case Some(cur) =>
      if Outranked(s, cur) {
        PreemptKeeps(s, cur);
      } else if cur.cls == Rt && t.ticks >= s.quantum {
        if Top(s.ready) == Some(cur.prio) {
          TickRotates(s, cur);
        } else {
          StayKeeps(s, cur, 0);
        }
      } else {
        StayKeeps(s, cur, t.ticks);
      }
  }

  lemma YieldKeeps(s: Sched)
    requires s.Valid()
    ensures var (n, d) := Yield(s); n.Valid() && Settled(n) && Conserves(s, YieldPoint, n) && Truthful(s, n, d)
  {
    match s.current
    case None => DispatchKeeps(s, None);
    case Some(cur) =>
      if cur.cls == Rt {
        YieldRt(s, cur);
      } else {
        RescheduleKeeps(s);
      }
  }

  lemma YieldRt(s: Sched, cur: Running)
    requires s.Valid() && s.current == Some(cur) && cur.cls == Rt
    ensures var (n, d) := Yield(s); n.Valid() && Settled(n) && Conserves(s, YieldPoint, n) && Truthful(s, n, d)
  {
    var q := Admit(s, cur.id, cur.prio);
    assert q.ready == Requeued(s, cur) && q.ready[cur.prio] != [];
    DispatchKeeps(q, Some(cur.id));
    var n := Dispatch(q, Some(cur.id)).0;
    forall l | 0 <= l < PRIORITY_LEVELS
      ensures Level(n, l) == Level(s, l)
    {
      RequeuedLevel(s, cur, l);
    }
  }

  lemma AdmitAdds(s: Sched, t: nat, prio: nat)
    requires s.Valid() && prio < PRIORITY_LEVELS
    ensures Admit(s, t, prio).Valid() && OneMore(s, t, prio, Admit(s, t, prio))
  {
    EnqueuedLevels(s.ready, t, prio);
  }

  lemma OneMoreThen(s: Sched, t: nat, prio: nat, u: Sched, n: Sched)
    requires OneMore(s, t, prio, u) && SameThreads(u, n)
    ensures OneMore(s, t, prio, n)
  {
    forall l | 0 <= l < |s.ready|
      ensures Level(n, l) == Level(u, l)
    {
    }
  }

  lemma WakeKeeps(s: Sched, t: nat, prio: nat)
    requires s.Valid() && prio < PRIORITY_LEVELS
    ensures var (n, d) := Wake(s, t, prio);
            n.Valid() && Settled(n) && Conserves(s, WakePoint(t, prio), n) && Truthful(s, n, d)
  {
    var u := Admit(s, t, prio);
    AdmitAdds(s, t, prio);
    RescheduleKeeps(u);
    OneMoreThen(s, t, prio, u, Reschedule(u).0);
  }

  lemma BlockKeeps(s: Sched)
    requires s.Valid()
    ensures var (n, d) := Block(s); n.Valid() && Settled(n) && Conserves(s, BlockPoint, n) && Truthful(s, n, d)
  {
    DispatchKeeps(s.(current := None, ticks := 0), s.Id());
  }

  /** Removing a ready thread takes exactly one occurrence of it from its level, if it is there. */
  lemma DequeueTakesOne(q: seq<seq<nat>>, t: nat, prio: nat)
    requires prio < |q|
    ensures multiset(Dequeued(q, t, prio)[prio]) == multiset(q[prio]) - multiset{t}
    ensures forall l :: 0 <= l < |q| && l != prio ==> Dequeued(q, t, prio)[l] == q[l]
    ensures t !in q[prio] ==> Dequeued(q, t, prio) == q
  {
    match FirstOf(q[prio], t)
    case None =>
    case Some(i) => TakenOut(q[prio], i);
  }

  lemma TakenOut(line: seq<nat>, i: nat)
    requires i < |line|
    ensures multiset(line[..i] + line[i + 1..]) == multiset(line) - multiset{line[i]}
  {
    assert line == line[..i] + [line[i]] + line[i + 1..];
  }

  /** It takes the first, and the others keep their order. */
  lemma DequeueTakesFirst(q: seq<seq<nat>>, prio: nat, a: seq<nat>, t: nat, b: seq<nat>)
    requires prio < |q| && q[prio] == a + [t] + b && t !in a
    ensures Dequeued(q, t, prio)[prio] == a + b
  {
    FirstIs(a, t, b);
    var line := q[prio];
    assert line[..|a|] == a && line[|a| + 1..] == b;
  }

  lemma {:induction false} FirstIs(a: seq<nat>, t: nat, b: seq<nat>)
    requires t !in a
    ensures FirstOf(a + [t] + b, t) == Some(|a|)
  {
    if a != [] {
      FirstIs(a[1..], t, b);
      assert (a + [t] + b)[0] == a[0] && (a + [t] + b)[1..] == a[1..] + [t] + b;
    }
  }

  /** Every scheduling point, from any state at all, leaves the most urgent thread running,
      keeps every thread at its level exactly once, and tells the truth about the switch. */
  lemma PointKeeps(s: Sched, p: Point)
    requires s.Valid() && (p.WakePoint? ==> p.prio < PRIORITY_LEVELS)
    ensures var (n, d) := At(s, p); n.Valid() && Settled(n) && Conserves(s, p, n) && Truthful(s, n, d)
  {
    match p
    case TickPoint => TickKeeps(s);
    case ReschedulePoint => RescheduleKeeps(s);
    case WakePoint(t, prio) => WakeKeeps(s, t, prio);
    case YieldPoint => YieldKeeps(s);
    case BlockPoint => BlockKeeps(s);
  }
}
