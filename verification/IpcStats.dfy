/** Counter readings, the intervals between them, and the running fit over intervals
    (kernel/src/ipcstat.rs). */
module IpcStats {
  import opened Objects
  import opened LeastSquares

  const TWO32: nat := 0x1_0000_0000

  datatype InputAxis = DeviceIrq | SerialKey

  datatype Sample = Sample(syscalls: nat, switches: nat, deviceIrqs: nat, serialKeys: nat, uptimeNs: nat)

  datatype Interval = Interval(syscalls: nat, switches: nat, deviceIrqs: nat, serialKeys: nat, elapsedNs: nat)

  function SaturatingSub(a: nat, b: nat): nat {
    if a >= b then a - b else 0
  }

  /** The system call counter has 32 bits and wraps; the others do not. */
  function IntervalSince(now: Sample, base: Sample): Interval {
    Interval((now.syscalls + TWO32 - base.syscalls % TWO32) % TWO32,
             SaturatingSub(now.switches, base.switches),
             SaturatingSub(now.deviceIrqs, base.deviceIrqs),
             SaturatingSub(now.serialKeys, base.serialKeys),
             SaturatingSub(now.uptimeNs, base.uptimeNs))
  }

  /** The readings after `gone` has passed. */
  function Advanced(base: Sample, gone: Interval): Sample {
    Sample((base.syscalls + gone.syscalls) % TWO32, base.switches + gone.switches, base.deviceIrqs + gone.deviceIrqs,
           base.serialKeys + gone.serialKeys, base.uptimeNs + gone.elapsedNs)
  }

  /** The difference of two readings is what passed between them, also across one wrap. */
  lemma DifferenceIsWhatPassed(base: Sample, gone: Interval)
    requires base.syscalls < TWO32 && gone.syscalls < TWO32
    ensures IntervalSince(Advanced(base, gone), base) == gone
  {
    var sum := base.syscalls + gone.syscalls;
    if sum >= TWO32 {
      assert sum % TWO32 == sum - TWO32;
    }
  }

  function PointOf(v: Interval, axis: InputAxis): Point {
    Point(if axis == DeviceIrq then v.deviceIrqs else v.serialKeys, v.elapsedNs / 1_000_000, v.syscalls, v.switches)
  }

  /** A counter that went back, and a clock that did, count as having stood still. */
  lemma BackIsNothing(now: Sample, base: Sample)
    ensures var v := IntervalSince(now, base);
            && (now.switches <= base.switches ==> v.switches == 0) && (now.deviceIrqs <= base.deviceIrqs ==> v.deviceIrqs == 0)
            && (now.serialKeys <= base.serialKeys ==> v.serialKeys == 0) && (now.uptimeNs <= base.uptimeNs ==> v.elapsedNs == 0)
            && v.syscalls < TWO32
  {
  }

  function Points(vs: seq<Interval>, axis: InputAxis): (r: seq<Point>)
    ensures |r| == |vs|
  {
    seq(|vs|, k requires 0 <= k < |vs| => PointOf(vs[k], axis))
  }

  /** The input events of an interval on an axis. */
  function Events(v: Interval, axis: InputAxis): nat {
    match axis
    case DeviceIrq => v.deviceIrqs
    case SerialKey => v.serialKeys
  }

  /** In every interval, `m` times the count is `a` per input event and `b` per millisecond. */
  ghost predicate Costs(vs: seq<Interval>, axis: InputAxis, count: Interval -> nat, a: int, b: int, m: int) {
    forall k :: 0 <= k < |vs| ==> m * count(vs[k]) == a * Events(vs[k], axis) + b * (vs[k].elapsedNs / 1_000_000)
  }

  /** Two intervals do not have the same ratio of input events to milliseconds. */
  ghost predicate Apart(v: Interval, w: Interval, axis: InputAxis) {
    Events(v, axis) * (w.elapsedNs / 1_000_000) != Events(w, axis) * (v.elapsedNs / 1_000_000)
  }

  /** When system calls cost `a / m` per input event and `b / m` per millisecond, and switches
      `c / m` and `d / m`, any fit on that axis says so, in hundredths per event and per second. */
  lemma IntervalsRecover(vs: seq<Interval>, axis: InputAxis, i: nat, j: nat, a: int, b: int, c: int, d: int, m: int)
    requires m > 0 && i < |vs| && j < |vs| && Apart(vs[i], vs[j], axis)
    requires Costs(vs, axis, (v: Interval) => v.syscalls, a, b, m) && Costs(vs, axis, (v: Interval) => v.switches, c, d, m)
    ensures var r := Solve(SumsOf(Points(vs, axis)));
            && r.Some? && r.value.samples == |vs|
            && r.value.syscallsPerInput == Narrow(Quotient(a * 100, m)) && r.value.syscallsPerSecond == Narrow(Quotient(b * 100_000, m))
            && r.value.switchesPerInput == Narrow(Quotient(c * 100, m)) && r.value.switchesPerSecond == Narrow(Quotient(d * 100_000, m))
  {
    var ps := Points(vs, axis);
    assert Cross(ps[i], ps[j]) != 0;
    forall k | 0 <= k < |ps|
      ensures m * ps[k].syscalls == a * ps[k].i + b * ps[k].t && m * ps[k].switches == c * ps[k].i + d * ps[k].t
    {
      assert ps[k] == PointOf(vs[k], axis);
    }
    FitRecoversLinear(ps, a, b, c, d, m);
    SeparationIsPercent(ps);
  }

  lemma SumsMore(ps: seq<Point>, p: Point)
    ensures SumsOf(ps + [p]) == SumsOf(ps).Plus(p)
  {
    assert (ps + [p])[..|ps|] == ps;
  }

  class Accumulator {
    var n: nat
    var sii: nat
    var sit: nat
    var stt: nat
    var sicSyscalls: nat
    var stcSyscalls: nat
    var sicSwitches: nat
    var stcSwitches: nat

    ghost function View(): Sums
      reads this
    {
      Sums(n, sii, sit, stt, sicSyscalls, stcSyscalls, sicSwitches, stcSwitches)
    }

    constructor ()
      ensures View() == none
    {
      n, sii, sit, stt := 0, 0, 0, 0;
      sicSyscalls, stcSyscalls, sicSwitches, stcSwitches := 0, 0, 0, 0;
    }

    /** After this the sums are those of one more interval, whatever came before. */
    method Add(interval: Interval, axis: InputAxis)
      modifies this
      ensures View() == old(View()).Plus(PointOf(interval, axis))
      ensures forall ps :: old(View()) == SumsOf(ps) ==> View() == SumsOf(ps + [PointOf(interval, axis)])
    {
      var i := if axis == DeviceIrq then interval.deviceIrqs else interval.serialKeys;
      var t := interval.elapsedNs / 1_000_000;
      n := n + 1;
      sii := sii + i * i;
      sit := sit + i * t;
      stt := stt + t * t;
      sicSyscalls := sicSyscalls + i * interval.syscalls;
      stcSyscalls := stcSyscalls + t * interval.syscalls;
      sicSwitches := sicSwitches + i * interval.switches;
      stcSwitches := stcSwitches + t * interval.switches;
      forall ps: seq<Point> | old(View()) == SumsOf(ps)
        ensures View() == SumsOf(ps + [PointOf(interval, axis)])
      {
        SumsMore(ps, PointOf(interval, axis));
      }
    }

    method SolveFit() returns (r: Option<Fit>)
      ensures r == Solve(View())
    {
      if n < 2 {
        return None;
      }
      var det := sii * stt - sit * sit;
      if det == 0 {
        return None;
      }
      var scale := sii * stt;
      var a, b := SolveOne(sicSyscalls, stcSyscalls, det);
      var c, d := SolveOne(sicSwitches, stcSwitches, det);
      return Some(Fit(a, b, c, d, if scale == 0 then 0 else Narrow(Quotient(det * 100, scale)), n));
    }

    method SolveOne(sic: int, stc: int, det: int) returns (perInput: int, perSecond: int)
      requires det == View().Det() && det != 0
      ensures perInput == PerInput(View(), sic, stc) && perSecond == PerSecond(View(), sic, stc)
    {
      perInput := Narrow(Quotient((sic * stt - stc * sit) * 100, det));
      perSecond := Narrow(Quotient((sii * stc - sit * sic) * 100_000, det));
    }
  }

  /** `fit`: two intervals give the exact solve of two equations, or nothing when they have one
      ratio of input to time. */
  method FitTwo(a: Interval, b: Interval, axis: InputAxis) returns (r: Option<Fit>)
    ensures var (p, q) := (PointOf(a, axis), PointOf(b, axis));
            && (r.Some? <==> Cross(p, q) != 0)
            && (r.Some? ==>
                  && (r.value.syscallsPerInput, r.value.syscallsPerSecond) ==
                     Cramer(p.syscalls, q.syscalls, p.i, p.t, q.i, q.t, Cross(p, q))
                  && (r.value.switchesPerInput, r.value.switchesPerSecond) ==
                     Cramer(p.switches, q.switches, p.i, p.t, q.i, q.t, Cross(p, q)))
  {
    var acc := new Accumulator();
    ghost var p, q := PointOf(a, axis), PointOf(b, axis);
    acc.Add(a, axis);
    acc.Add(b, axis);
    SumsMore([], p);
    SumsMore([p], q);
    assert [] + [p] == [p] && [p] + [q] == [p, q];
    r := acc.SolveFit();
    FitOfTwo(p, q);
  }

  lemma FitOfTwo(p: Point, q: Point)
    ensures var r := Solve(SumsOf([p, q]));
            && (r.Some? <==> Cross(p, q) != 0)
            && (r.Some? ==>
                  && (r.value.syscallsPerInput, r.value.syscallsPerSecond) ==
                     Cramer(p.syscalls, q.syscalls, p.i, p.t, q.i, q.t, Cross(p, q))
                  && (r.value.switchesPerInput, r.value.switchesPerSecond) ==
                     Cramer(p.switches, q.switches, p.i, p.t, q.i, q.t, Cross(p, q)))
  {
    SolvesIff([p, q]);
    assert OneRatio([p, q]) <==> Cross([p, q][0], [p, q][1]) == 0;
    if Cross(p, q) != 0 {
      TwoIsCramer(p, q, p.syscalls, q.syscalls);
      TwoIsCramer(p, q, p.switches, q.switches);
      TwoSeries(p, q);
    }
  }

  lemma TwoSeries(p: Point, q: Point)
    ensures var s := SumsOf([p, q]);
            && s.sicA == RightI(p, q, p.syscalls, q.syscalls) && s.stcA == RightT(p, q, p.syscalls, q.syscalls)
            && s.sicB == RightI(p, q, p.switches, q.switches) && s.stcB == RightT(p, q, p.switches, q.switches)
  {
    assert [p, q][..1] == [p] && [p][..0] == [];
    assert SumsOf([p]) == none.Plus(p) && SumsOf([p, q]) == SumsOf([p]).Plus(q);
  }
}
