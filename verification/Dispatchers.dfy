/** The dispatcher as the object it is (kernel/src/sched.rs, `Dispatcher`) and the loop that
    measures it (kernel/src/actorstat.rs, `scheduler_sample`). The branches the source guards
    with a debug assertion are shown unreachable. */
module Dispatchers {
  import opened Objects
  import opened ReadyQueues
  import opened Scheduler
  import opened RoundRobin

  class Dispatcher {
    const rt: PriorityClass
    var idle: Option<nat>
    var current: Option<Running>
    const quantum: nat
    var ticks: nat

    ghost function View(): Sched
      reads this, rt
    {
      Sched(rt.queues, idle, current, quantum, ticks)
    }

    ghost predicate Valid()
      reads this, rt, rt.words
    {
      rt.Valid() && View().Valid()
    }

    constructor (quantumTicks: nat)
      requires quantumTicks <= U32_MAX
      ensures Valid() && fresh(rt) && fresh(rt.words)
      ensures View() == Sched(seq(PRIORITY_LEVELS, i => []), None, None, if quantumTicks < 1 then 1 else quantumTicks, 0)
    {
      rt := new PriorityClass();
      idle := None;
      current := None;
      quantum := if quantumTicks < 1 then 1 else quantumTicks;
      ticks := 0;
    }

    method SetIdle(t: nat)
      requires Valid()
      modifies this`idle
      ensures Valid() && View() == old(View()).(idle := Some(t))
    {
      idle := Some(t);
    }

    method AdmitRt(t: nat, prio: nat)
      requires Valid() && prio < PRIORITY_LEVELS
      modifies rt, rt.words
      ensures Valid() && View() == Admit(old(View()), t, prio)
    {
      rt.Enqueue(t, prio);
    }

    method RemoveReadyRt(t: nat, prio: nat) returns (found: bool)
      requires Valid() && prio < PRIORITY_LEVELS
      modifies rt, rt.words
      ensures Valid() && View() == old(View()).(ready := Dequeued(old(rt.queues), t, prio))
      ensures found <==> t in old(rt.queues)[prio]
    {
      found := rt.Dequeue(t, prio);
    }

    method SetRunning(t: nat, prio: nat, cls: ClassId)
      requires Valid() && prio < PRIORITY_LEVELS
      modifies this`current, this`ticks
      ensures Valid() && View() == old(View()).(current := Some(Running(t, prio, cls)), ticks := 0)
    {
      current := Some(Running(t, prio, cls));
      ticks := 0;
    }

    method DispatchAfterRemoved(from: Option<nat>) returns (d: Decision)
      requires Valid()
      modifies this`current, this`ticks, rt, rt.words
      ensures rt.Valid() && (View(), d) == Dispatch(old(View()), from)
    {
      var top := rt.PeekTop();
      if top.Some? {
        var to := rt.PickNext();
        if to.Some? {
          current := Some(Running(to.value, top.value, Rt));
          ticks := 0;
          return if from == to then Continue(to.value) else Switch(from, to.value);
        }
        assert false;
      }
      if idle.Some? {
        current := Some(Running(idle.value, LOWEST, IdleFloor));
        ticks := 0;
        return if from == idle then Continue(idle.value) else Switch(from, idle.value);
      }
      return NothingToRun;
    }

    method PreemptToRt(cur: Running) returns (d: Decision)
      requires rt.Valid() && cur.prio < PRIORITY_LEVELS && Top(rt.queues).Some?
      modifies this`current, this`ticks, rt, rt.words
      ensures rt.Valid() && (View(), d) == Preempt(old(View()), cur)
    {
      if cur.cls == Rt {
        rt.Enqueue(cur.id, cur.prio);
        assert rt.queues[cur.prio] != [];
      }
      var prio := rt.PeekTop();
      var to := rt.PickNext();
      if prio.None? || to.None? {
        assert false;
      } else {
        current := Some(Running(to.value, prio.value, Rt));
        ticks := 0;
        d := Switch(Some(cur.id), to.value);
      }
    }

    method RotateSameLevel(cur: Running) returns (d: Decision)
      requires Valid() && cur.prio < PRIORITY_LEVELS
      modifies this`current, rt, rt.words
      ensures rt.Valid() && (View(), d) == Rotate(old(View()), cur)
    {
      rt.Enqueue(cur.id, cur.prio);
      assert rt.queues[cur.prio] != [];
      var to := rt.PickNext();
      if to.None? {
        assert false;
      } else {
        current := Some(Running(to.value, cur.prio, Rt));
        d := if to.value == cur.id then Continue(cur.id) else Switch(Some(cur.id), to.value);
      }
    }

    method OnTimerTick() returns (d: Decision)
      requires Valid()
      modifies this`current, this`ticks, rt, rt.words
      ensures Valid() && (View(), d) == Tick(old(View()))
    {
      TickKeeps(View());
      ticks := if ticks == U32_MAX then U32_MAX else ticks + 1;
      if current.None? {
        d := DispatchAfterRemoved(None);
        return;
      }
      var cur := current.value;
      var top := rt.PeekTop();
      if top.Some? && (cur.cls == IdleFloor || top.value < cur.prio) {
        d := PreemptToRt(cur);
        return;
      }
      if cur.cls == Rt && ticks >= quantum {
        ticks := 0;
        if top == Some(cur.prio) {
          d := RotateSameLevel(cur);
          return;
        }
      }
      d := Continue(cur.id);
    }

    method RescheduleCurrent() returns (d: Decision)
      requires Valid()
      modifies this`current, this`ticks, rt, rt.words
      ensures Valid() && (View(), d) == Reschedule(old(View()))
    {
      RescheduleKeeps(View());
      if current.None? {
        d := DispatchAfterRemoved(None);
        return;
      }
      var cur := current.value;
      var top := rt.PeekTop();
      if top.Some? && (cur.cls == IdleFloor || top.value < cur.prio) {
        d := PreemptToRt(cur);
        return;
      }
      d := Continue(cur.id);
    }

    method WakeRt(t: nat, prio: nat) returns (d: Decision)
      requires Valid() && prio < PRIORITY_LEVELS
      modifies this`current, this`ticks, rt, rt.words
      ensures Valid() && (View(), d) == Wake(old(View()), t, prio)
    {
      rt.Enqueue(t, prio);
      d := RescheduleCurrent();
    }

    method YieldCurrent() returns (d: Decision)
      requires Valid()
      modifies this`current, this`ticks, rt, rt.words
      ensures Valid() && (View(), d) == Yield(old(View()))
    {
      YieldKeeps(View());
      if current.None? {
        d := DispatchAfterRemoved(None);
        return;
      }
      var cur := current.value;
      match cur.cls
      case Rt =>
        rt.Enqueue(cur.id, cur.prio);
        d := DispatchAfterRemoved(Some(cur.id));
      case IdleFloor =>
        d := RescheduleCurrent();
    }

    method BlockCurrent() returns (d: Decision)
      requires Valid()
      modifies this`current, this`ticks, rt, rt.words
      ensures Valid() && (View(), d) == Block(old(View()))
    {
      BlockKeeps(View());
      var from := if current.Some? then Some(current.value.id) else None;
      current := None;
      ticks := 0;
      d := DispatchAfterRemoved(from);
    }

    method FinishCurrent() returns (d: Decision)
      requires Valid()
      modifies this`current, this`ticks, rt, rt.words
      ensures Valid() && (View(), d) == Block(old(View()))
    {
      d := BlockCurrent();
    }
  }

  const SCHEDULER_SAMPLES: set<nat> := {1, 2, 4, 8, 12, 16, 32, 64, 128, 256}

  /** A private dispatcher with `n` equals, the first of them running. */
  method NewRing(n: nat) returns (d: Dispatcher)
    requires n > 0
    ensures d.Valid() && d.View() == Ring(n, 0) && fresh(d) && fresh(d.rt) && fresh(d.rt.words)
  {
    d := new Dispatcher(1);
    d.SetRunning(1, 63, Rt);
    FirstPeer();
    var i := 2;
    while i <= n
      invariant 2 <= i <= n + 1 && d.Valid() && d.View() == Ring(i - 1, 0)
      invariant fresh(d) && fresh(d.rt) && fresh(d.rt.words)
    {
      d.AdmitRt(i, 63);
      MorePeers(i - 1);
      i := i + 1;
    }
  }

  /** One full turn of the ring. */
  method WarmUp(d: Dispatcher, n: nat)
    requires n > 0 && d.Valid() && d.View() == Ring(n, 0)
    modifies d, d.rt, d.rt.words
    ensures d.Valid() && d.View() == Ring(n, 0)
  {
    var k := 0;
    while k < n
      invariant 0 <= k <= n && d.Valid() && d.View() == Ring(n, k)
    {
      RingYields(n, k);
      var _ := d.YieldCurrent();
      k := k + 1;
    }
    RingTurns(n);
  }

  /** The timed loop, which checks every selection. */
  method Rotates(d: Dispatcher, n: nat, steps: nat) returns (ordered: bool)
    requires n > 0 && d.Valid() && d.View() == Ring(n, 0)
    modifies d, d.rt, d.rt.words
    ensures ordered
  {
    var i := 0;
    while i < steps
      invariant 0 <= i <= steps && d.Valid() && d.View() == Ring(n, i)
    {
      var next := (i + 1) % n + 1;
      RingYields(n, i);
      var decision := d.YieldCurrent();
      if decision.NothingToRun? {
        return false;
      }
      var id := if decision.Continue? then decision.id else decision.to;
      if id != next {
        return false;
      }
      i := i + 1;
    }
    return true;
  }

  /** The timed rotation never finds the dispatcher out of order: it fails only for a size
      that is not supported, for no steps, or for a clock (`start`, `stop`) that went back. */
  method SchedulerSample(n: nat, steps: nat, start: nat, stop: nat) returns (r: Option<nat>)
    ensures r == if n in SCHEDULER_SAMPLES && steps > 0 && start <= stop then Some(stop - start) else None
  {
    if n !in SCHEDULER_SAMPLES || steps == 0 {
      return None;
    }
    var d := NewRing(n);
    WarmUp(d, n);
    var ordered := Rotates(d, n, steps);
    if !ordered || stop < start {
      return None;
    }
    return Some(stop - start);
  }
}
