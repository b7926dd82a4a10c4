/** The integer least-squares fit behind `ipcstat` (kernel/src/ipcstat.rs, `Accumulator`, `fit`
    and the two-interval `solve`). Sums are unbounded here; the narrowing of the results to 64
    bits is explicit. */
module LeastSquares {
  import opened Objects

  /** One interval: input events, milliseconds, and the two series measured over it. */
  datatype Point = Point(i: nat, t: nat, syscalls: nat, switches: nat)

  datatype Sums = Sums(n: nat, sii: int, sit: int, stt: int, sicA: int, stcA: int, sicB: int, stcB: int) {
    function Plus(p: Point): Sums {
      Sums(n + 1, sii + p.i * p.i, sit + p.i * p.t, stt + p.t * p.t,
           sicA + p.i * p.syscalls, stcA + p.t * p.syscalls, sicB + p.i * p.switches, stcB + p.t * p.switches)
    }

    function Det(): int {
      sii * stt - sit * sit
    }
  }

  datatype Fit = Fit(syscallsPerInput: int, syscallsPerSecond: int, switchesPerInput: int, switchesPerSecond: int,
                     separation: int, samples: nat)

  const none := Sums(0, 0, 0, 0, 0, 0, 0, 0)

  function SumsOf(ps: seq<Point>): Sums {
    if ps == [] then none else SumsOf(ps[..|ps| - 1]).Plus(ps[|ps| - 1])
  }

  /** Division that truncates toward zero. */
  function Quotient(a: int, d: int): int
    requires d != 0
  {
    if (a >= 0) == (d > 0) then Abs(a) / Abs(d) else -(Abs(a) / Abs(d))
  }

  function Abs(a: int): (r: nat)
    ensures r == a || r == -a
  {
    if a < 0 then -a else a
  }

  const TWO64: int := 0x1_0000_0000_0000_0000

  /** A cast to `i64`. */
  function Narrow(a: int): (r: int)
    ensures -TWO64 / 2 <= r < TWO64 / 2
    ensures -TWO64 / 2 <= a < TWO64 / 2 ==> r == a
    ensures (a - r) % TWO64 == 0
  {
    (a + TWO64 / 2) % TWO64 - TWO64 / 2
  }

  /** `Accumulator::solve`. */
  function Solve(s: Sums): Option<Fit> {
    if s.n < 2 || s.Det() == 0 then None
    else
      var scale := s.sii * s.stt;
      Some(Fit(
             PerInput(s, s.sicA, s.stcA), PerSecond(s, s.sicA, s.stcA),
             PerInput(s, s.sicB, s.stcB), PerSecond(s, s.sicB, s.stcB),
             if scale == 0 then 0 else Narrow(Quotient(s.Det() * 100, scale)), s.n))
  }

  function PerInput(s: Sums, sic: int, stc: int): int
    requires s.Det() != 0
  {
    Narrow(Quotient((sic * s.stt - stc * s.sit) * 100, s.Det()))
  }

  function PerSecond(s: Sums, sic: int, stc: int): int
    requires s.Det() != 0
  {
    Narrow(Quotient((s.sii * stc - s.sit * sic) * 100_000, s.Det()))
  }

  // ---- The determinant -----------------------------------------------------------------

  function Cross(p: Point, q: Point): int {
    p.i * q.t - q.i * p.t
  }

  function CrossSum(ps: seq<Point>, q: Point): int {
    if ps == [] then 0
    else CrossSum(ps[..|ps| - 1], q) + Cross(ps[|ps| - 1], q) * Cross(ps[|ps| - 1], q)
  }

  /** The sum over all pairs of the square of their cross product. */
  function PairSum(ps: seq<Point>): int {
    if ps == [] then 0 else PairSum(ps[..|ps| - 1]) + CrossSum(ps[..|ps| - 1], ps[|ps| - 1])
  }

  lemma CrossSquare(p: Point, q: Point)
    ensures Cross(p, q) * Cross(p, q) ==
            p.i * p.i * (q.t * q.t) - 2 * (p.i * p.t * (q.i * q.t)) + p.t * p.t * (q.i * q.i)
  {
    var a, b := p.i * q.t, q.i * p.t;
    assert (a - b) * (a - b) == a * a - 2 * (a * b) + b * b;
    assert a * a == p.i * p.i * (q.t * q.t) && b * b == p.t * p.t * (q.i * q.i) && a * b == p.i * p.t * (q.i * q.t);
  }

  lemma {:induction false} CrossSumIs(ps: seq<Point>, q: Point)
    ensures var s := SumsOf(ps);
            CrossSum(ps, q) == s.sii * (q.t * q.t) - 2 * (s.sit * (q.i * q.t)) + s.stt * (q.i * q.i)
  {
    if ps != [] {
      var before, p := ps[..|ps| - 1], ps[|ps| - 1];
      var s := SumsOf(before);
      CrossSumIs(before, q);
      CrossSquare(p, q);
      var tt, it, ii := q.t * q.t, q.i * q.t, q.i * q.i;
      Distribute(s.sii, p.i * p.i, tt);
      Distribute(s.sit, p.i * p.t, it);
      Distribute(s.stt, p.t * p.t, ii);
    }
  }

  lemma Distribute(a: int, b: int, c: int)
    ensures (a + b) * c == a * c + b * c
  {
  }

  /** Lagrange: the determinant is the sum of the squared cross products. */
  lemma {:induction false} DetIsPairSum(ps: seq<Point>)
    ensures SumsOf(ps).Det() == PairSum(ps)
  {
    if ps != [] {
      var before, p := ps[..|ps| - 1], ps[|ps| - 1];
      DetIsPairSum(before);
      CrossSumIs(before, p);
      DetPlus(SumsOf(before), p);
    }
  }

  lemma DetPlus(s: Sums, p: Point)
    ensures s.Plus(p).Det() == s.Det() + (s.sii * (p.t * p.t) - 2 * (s.sit * (p.i * p.t)) + s.stt * (p.i * p.i))
  {
    var ii, it, tt := p.i * p.i, p.i * p.t, p.t * p.t;
    assert ii * tt == it * it;
    assert (s.sii + ii) * (s.stt + tt) == s.sii * s.stt + s.sii * tt + ii * s.stt + ii * tt;
    assert (s.sit + it) * (s.sit + it) == s.sit * s.sit + 2 * (s.sit * it) + it * it;
  }

  lemma SquareSign(a: int)
    ensures a * a >= 0 && (a * a == 0 <==> a == 0)
  {
  }

  /** All cross products with `q` vanish. */
  ghost predicate Aligned(ps: seq<Point>, q: Point) {
    forall j :: 0 <= j < |ps| ==> Cross(ps[j], q) == 0
  }

  lemma {:induction false} CrossSumZero(ps: seq<Point>, q: Point)
    ensures CrossSum(ps, q) >= 0 && (CrossSum(ps, q) == 0 <==> Aligned(ps, q))
  {
    if ps != [] {
      CrossSumZero(ps[..|ps| - 1], q);
      SquareSign(Cross(ps[|ps| - 1], q));
    }
  }

  /** Every two intervals have the same ratio of input to time. */
  ghost predicate OneRatio(ps: seq<Point>) {
    forall j, k :: 0 <= j < k < |ps| ==> Cross(ps[j], ps[k]) == 0
  }

  lemma {:induction false} PairSumZero(ps: seq<Point>)
    ensures PairSum(ps) >= 0 && (PairSum(ps) == 0 <==> OneRatio(ps))
  {
    if ps != [] {
      var before, p := ps[..|ps| - 1], ps[|ps| - 1];
      PairSumZero(before);
      CrossSumZero(before, p);
      if OneRatio(ps) {
        assert forall j :: 0 <= j < |before| ==> Cross(before[j], p) == Cross(ps[j], ps[|ps| - 1]);
      } else if OneRatio(before) {
        var j, k :| 0 <= j < k < |ps| && Cross(ps[j], ps[k]) != 0;
        assert before[j] == ps[j] && ps[k] == p;
      }
    }
  }

  /** The determinant is never negative, and a fit is refused exactly for fewer than two
      intervals or when all of them have one ratio of input to time. */
  lemma SolvesIff(ps: seq<Point>)
    ensures SumsOf(ps).Det() >= 0
    ensures Solve(SumsOf(ps)).Some? <==> |ps| >= 2 && !OneRatio(ps)
  {
    DetIsPairSum(ps);
    PairSumZero(ps);
    CountIs(ps);
  }

  lemma {:induction false} CountIs(ps: seq<Point>)
    ensures SumsOf(ps).n == |ps| && SumsOf(ps).sii >= 0 && SumsOf(ps).stt >= 0
  {
    if ps != [] {
      CountIs(ps[..|ps| - 1]);
    }
  }

  /** The separation of a fit is a percentage, its scale is never zero and its sample count is
      the number of intervals. */
  lemma SeparationIsPercent(ps: seq<Point>)
    requires Solve(SumsOf(ps)).Some?
    ensures var f := Solve(SumsOf(ps)).value;
            var s := SumsOf(ps);
            s.sii * s.stt > 0 && 0 <= f.separation <= 100 && f.samples == |ps| && f.separation == s.Det() * 100 / (s.sii * s.stt)
  {
    var s := SumsOf(ps);
    SolvesIff(ps);
    CountIs(ps);
    SquareSign(s.sit);
    var scale := s.sii * s.stt;
    assert 0 < s.Det() <= scale;
    Percent(s.Det(), scale);
  }

  lemma Percent(a: int, b: int)
    requires 0 < a <= b
    ensures 0 <= a * 100 / b <= 100 && Quotient(a * 100, b) == a * 100 / b
  {
    assert a * 100 <= b * 100;
    DivBetween(a * 100, b, 100);
  }

  lemma DivBetween(a: int, b: int, q: nat)
    requires b > 0 && 0 <= a <= b * q
    ensures 0 <= a / b <= q
  {
    var d := a / b;
    assert b * d <= a;
    MulOrder(b, d, q);
    MulOrder(b, -1, d);
    assert a < b * d + b;
  }

  lemma MulOrder(b: int, x: int, y: int)
    requires b > 0
    ensures b * x <= b * y ==> x <= y
    ensures b * x < b * y ==> x < y
  {
    if x > y {
      assert b * (x - y) > 0;
    }
    if x >= y {
      assert b * (x - y) >= 0;
    }
  }

  // ---- The order of intervals ----------------------------------------------------------

  lemma PlusCommutes(s: Sums, p: Point, q: Point)
    ensures s.Plus(p).Plus(q) == s.Plus(q).Plus(p)
  {
  }

  lemma {:induction false} SumsRemove(ps: seq<Point>, k: nat)
    requires k < |ps|
    ensures SumsOf(ps) == SumsOf(ps[..k] + ps[k + 1..]).Plus(ps[k])
  {
    var rest, last := ps[..k] + ps[k + 1..], ps[|ps| - 1];
    if k == |ps| - 1 {
      assert rest == ps[..k];
    } else {
      var before := ps[..|ps| - 1];
      SumsRemove(before, k);
      assert rest[..|rest| - 1] == before[..k] + before[k + 1..];
      assert rest[|rest| - 1] == last;
      PlusCommutes(SumsOf(before[..k] + before[k + 1..]), ps[k], last);
    }
  }

  lemma RemovedOne(qs: seq<Point>, k: nat)
    requires k < |qs|
    ensures multiset(qs[..k] + qs[k + 1..]) == multiset(qs) - multiset{qs[k]}
  {
    assert qs == qs[..k] + [qs[k]] + qs[k + 1..];
  }

  /** The same intervals in any order give the same sums, hence the same fit. */
  lemma {:induction false} OrderIrrelevant(ps: seq<Point>, qs: seq<Point>)
    requires multiset(ps) == multiset(qs)
    ensures SumsOf(ps) == SumsOf(qs)
    decreases |ps|
  {
    if ps == [] {
      assert |multiset(qs)| == 0;
    } else {
      var before, last := ps[..|ps| - 1], ps[|ps| - 1];
      assert ps == before + [last];
      assert last in multiset(qs);
      var k :| 0 <= k < |qs| && qs[k] == last;
      RemovedOne(qs, k);
      assert multiset(ps) == multiset(before) + multiset{last};
      OrderIrrelevant(before, qs[..k] + qs[k + 1..]);
      SumsRemove(qs, k);
    }
  }

  // ---- Exact data ----------------------------------------------------------------------

  /** The quotient is the whole number nearest to the ratio among those not further from zero. */
  lemma QuotientTruncates(a: int, d: int)
    requires d != 0
    ensures var rest := a - Quotient(a, d) * d;
            Abs(rest) < Abs(d) && (a >= 0 ==> rest >= 0) && (a <= 0 ==> rest <= 0)
  {
    if d > 0 {
      TruncatesBy(a, d);
    } else {
      TruncatesBy(a, -d);
      var q := Quotient(a, -d);
      assert Quotient(a, d) == -q || a == 0;
      assert -q * d == q * -d;
    }
  }

  lemma TruncatesBy(a: int, d: nat)
    requires d > 0
    ensures var rest := a - Quotient(a, d) * d;
            Abs(rest) < d && (a >= 0 ==> rest >= 0) && (a <= 0 ==> rest <= 0)
  {
    var q := Abs(a) / d;
    WholeAndRest(Abs(a), d);
    assert (-q) * d == -(q * d);
  }

  lemma WholeAndRest(x: nat, y: nat)
    requires y > 0
    ensures 0 <= x - (x / y) * y < y
  {
  }

  /** Equal ratios truncate to equal quotients. */
  lemma RatioQuotient(a: int, d: int, b: int, m: int)
    requires d > 0 && m > 0 && a * m == b * d
    ensures Quotient(a, d) == Quotient(b, m)
  {
    if a >= 0 {
      MulOrder(d, 0, b);
      RatioDiv(a, d, b, m);
    } else {
      MulOrder(m, a, 0);
      MulOrder(d, b, 0);
      assert (-a) * m == (-b) * d;
      RatioDiv(-a, d, -b, m);
    }
  }

  lemma RatioDiv(a: nat, d: nat, b: nat, m: nat)
    requires d > 0 && m > 0 && a * m == b * d
    ensures a / d == b / m
  {
    var dm := d * m;
    ScaledDiv(a, d, m, dm);
    ScaledDiv(b, m, d, dm);
    assert m * a == d * b;
    Between(dm, a / d, b / m, m * a);
  }

  lemma ScaledDiv(a: nat, d: nat, m: nat, dm: int)
    requires d > 0 && m > 0 && dm == d * m
    ensures dm * (a / d) <= m * a < dm * (a / d + 1)
  {
    var p := a / d;
    Scaled(m, d * p, a, d * (p + 1));
    Associates(m, d, p);
    Associates(m, d, p + 1);
  }

  lemma Associates(m: int, d: int, p: int)
    ensures m * (d * p) == d * m * p
  {
  }

  lemma Between(b: int, p: int, q: int, v: int)
    requires b > 0 && b * p <= v < b * (p + 1) && b * q <= v < b * (q + 1)
    ensures p == q
  {
    MulOrder(b, p, q + 1);
    MulOrder(b, q, p + 1);
  }

  lemma Scaled(m: nat, x: int, a: int, y: int)
    requires m > 0 && x <= a < y
    ensures m * x <= m * a < m * y
  {
    assert m * (a - x) >= 0 && m * (y - a) > 0;
  }

  /** `m` times the series is `a` per input and `b` per millisecond, on every interval. */
  ghost predicate Linear(ps: seq<Point>, series: Point -> nat, a: int, b: int, m: int) {
    forall j :: 0 <= j < |ps| ==> m * series(ps[j]) == a * ps[j].i + b * ps[j].t
  }

  function Sic(ps: seq<Point>, series: Point -> nat): int {
    if ps == [] then 0 else Sic(ps[..|ps| - 1], series) + ps[|ps| - 1].i * series(ps[|ps| - 1])
  }

  function Stc(ps: seq<Point>, series: Point -> nat): int {
    if ps == [] then 0 else Stc(ps[..|ps| - 1], series) + ps[|ps| - 1].t * series(ps[|ps| - 1])
  }

  lemma {:induction false} SeriesSums(ps: seq<Point>)
    ensures SumsOf(ps).sicA == Sic(ps, Syscalls()) && SumsOf(ps).stcA == Stc(ps, Syscalls())
    ensures SumsOf(ps).sicB == Sic(ps, Switches()) && SumsOf(ps).stcB == Stc(ps, Switches())
  {
    if ps != [] {
      SeriesSums(ps[..|ps| - 1]);
    }
  }

  lemma LinearTerm(x: int, c: int, i: int, t: int, a: int, b: int, m: int)
    requires m * c == a * i + b * t
    ensures m * (x * c) == a * (x * i) + b * (x * t)
  {
    assert m * (x * c) == x * (m * c);
    assert x * (a * i + b * t) == a * (x * i) + b * (x * t);
  }

  lemma {:induction false} LinearSums(ps: seq<Point>, series: Point -> nat, a: int, b: int, m: int)
    requires Linear(ps, series, a, b, m)
    ensures var s := SumsOf(ps);
            m * Sic(ps, series) == a * s.sii + b * s.sit && m * Stc(ps, series) == a * s.sit + b * s.stt
  {
    if ps != [] {
      var before, p := ps[..|ps| - 1], ps[|ps| - 1];
      LinearSums(before, series, a, b, m);
      var c := series(p);
      LinearTerm(p.i, c, p.i, p.t, a, b, m);
      LinearTerm(p.t, c, p.i, p.t, a, b, m);
      var s := SumsOf(before);
      Distribute(Sic(before, series), p.i * c, m);
      Distribute(Stc(before, series), p.t * c, m);
      Distribute(s.sii, p.i * p.i, a);
      Distribute(s.sit, p.i * p.t, b);
      Distribute(s.sit, p.i * p.t, a);
      Distribute(s.stt, p.t * p.t, b);
    }
  }

  /** Cramer's rule on the normal equations. */
  lemma Eliminates(s: Sums, sic: int, stc: int, a: int, b: int, m: int)
    requires m * sic == a * s.sii + b * s.sit && m * stc == a * s.sit + b * s.stt
    ensures (sic * s.stt - stc * s.sit) * m == a * s.Det()
    ensures (s.sii * stc - s.sit * sic) * m == b * s.Det()
  {
    var x, y, z := s.sii, s.sit, s.stt;
    assert (sic * z - stc * y) * m == (m * sic) * z - (m * stc) * y;
    assert (a * x + b * y) * z == a * (x * z) + b * (y * z);
    assert (a * y + b * z) * y == a * (y * y) + b * (y * z);
    assert (x * stc - y * sic) * m == (m * stc) * x - (m * sic) * y;
    assert (a * y + b * z) * x == a * (x * y) + b * (x * z);
    assert (a * x + b * y) * y == a * (x * y) + b * (y * y);
  }

  /** Data that is exactly `a/m` per input and `b/m` per millisecond gives these back, in
      hundredths and, for time, per second, truncated. */
  lemma RecoversLinear(ps: seq<Point>, series: Point -> nat, a: int, b: int, m: int)
    requires SumsOf(ps).Det() > 0 && m > 0 && Linear(ps, series, a, b, m)
    ensures PerInput(SumsOf(ps), Sic(ps, series), Stc(ps, series)) == Narrow(Quotient(a * 100, m))
    ensures PerSecond(SumsOf(ps), Sic(ps, series), Stc(ps, series)) == Narrow(Quotient(b * 100_000, m))
  {
    var s, sic, stc := SumsOf(ps), Sic(ps, series), Stc(ps, series);
    LinearSums(ps, series, a, b, m);
    Eliminates(s, sic, stc, a, b, m);
    var p, q := sic * s.stt - stc * s.sit, s.sii * stc - s.sit * sic;
    HundredQuotient(p, s.Det(), a, m, 100);
    HundredQuotient(q, s.Det(), b, m, 100_000);
  }

  /** The two series of an interval. */
  function Syscalls(): Point -> nat {
    (p: Point) => p.syscalls
  }

  function Switches(): Point -> nat {
    (p: Point) => p.switches
  }

  /** So the fit itself: exact linear data over two or more intervals not all of one ratio. */
  lemma FitRecoversLinear(ps: seq<Point>, a: int, b: int, c: int, d: int, m: int)
    requires |ps| >= 2 && !OneRatio(ps) && m > 0
    requires Linear(ps, Syscalls(), a, b, m) && Linear(ps, Switches(), c, d, m)
    ensures var r := Solve(SumsOf(ps));
            && r.Some?
            && r.value.syscallsPerInput == Narrow(Quotient(a * 100, m)) && r.value.syscallsPerSecond == Narrow(Quotient(b * 100_000, m))
            && r.value.switchesPerInput == Narrow(Quotient(c * 100, m)) && r.value.switchesPerSecond == Narrow(Quotient(d * 100_000, m))
  {
    SolvesIff(ps);
    SeriesSums(ps);
    RecoversLinear(ps, Syscalls(), a, b, m);
    RecoversLinear(ps, Switches(), c, d, m);
  }

  lemma HundredQuotient(p: int, d: int, a: int, m: int, k: int)
    requires d > 0 && m > 0 && p * m == a * d
    ensures Quotient(p * k, d) == Quotient(a * k, m)
  {
    assert p * k * m == k * (p * m) && a * k * d == k * (a * d);
    RatioQuotient(p * k, d, a * k, m);
  }

  // ---- Two intervals -------------------------------------------------------------------

  /** The exact solve of two equations. */
  function Cramer(c1: int, c2: int, i1: int, t1: int, i2: int, t2: int, det: int): (int, int)
    requires det != 0
  {
    (Narrow(Quotient((c1 * t2 - c2 * t1) * 100, det)), Narrow(Quotient((c1 * i2 - c2 * i1) * 100_000, -det)))
  }

  lemma QuotientSigns(a: int, d: int)
    requires d != 0
    ensures Quotient(a, d) == Quotient(-a, -d)
  {
    assert Abs(-a) == Abs(a) && Abs(-d) == Abs(d);
    if a == 0 {
      ZeroDiv(Abs(d));
    }
  }

  lemma ZeroDiv(d: int)
    requires d > 0
    ensures 0 / d == 0
  {
  }

  /** The two right-hand sides of two intervals with values `c1` and `c2`. */
  function RightI(p: Point, q: Point, c1: int, c2: int): int {
    p.i * c1 + q.i * c2
  }

  function RightT(p: Point, q: Point, c1: int, c2: int): int {
    p.t * c1 + q.t * c2
  }

  /** For two intervals least squares is the exact solve. */
  lemma TwoIsCramer(p: Point, q: Point, c1: int, c2: int)
    requires Cross(p, q) != 0
    ensures var s := SumsOf([p, q]);
            && s.Det() != 0
            && PerInput(s, RightI(p, q, c1, c2), RightT(p, q, c1, c2)) == Cramer(c1, c2, p.i, p.t, q.i, q.t, Cross(p, q)).0
            && PerSecond(s, RightI(p, q, c1, c2), RightT(p, q, c1, c2)) == Cramer(c1, c2, p.i, p.t, q.i, q.t, Cross(p, q)).1
  {
    TwoRates(p, q, c1, c2);
    TwoInput(p, q, c1, c2);
    TwoSecond(p, q, c1, c2);
  }

  lemma TwoInput(p: Point, q: Point, c1: int, c2: int)
    requires Cross(p, q) != 0
    ensures var s := SumsOf([p, q]);
            s.Det() != 0 && PerInput(s, RightI(p, q, c1, c2), RightT(p, q, c1, c2)) == Cramer(c1, c2, p.i, p.t, q.i, q.t, Cross(p, q)).0
  {
    var s, d := SumsOf([p, q]), Cross(p, q);
    TwoRates(p, q, c1, c2);
    SquareSign(d);
    CancelQuotient(c1 * q.t - c2 * p.t, d, RightI(p, q, c1, c2) * s.stt - RightT(p, q, c1, c2) * s.sit, 100);
  }

  lemma TwoSecond(p: Point, q: Point, c1: int, c2: int)
    requires Cross(p, q) != 0
    ensures var s := SumsOf([p, q]);
            s.Det() != 0 && PerSecond(s, RightI(p, q, c1, c2), RightT(p, q, c1, c2)) == Cramer(c1, c2, p.i, p.t, q.i, q.t, Cross(p, q)).1
  {
    var s, d, y := SumsOf([p, q]), Cross(p, q), c1 * q.i - c2 * p.i;
    TwoRates(p, q, c1, c2);
    SquareSign(d);
    CancelQuotient(-y, d, s.sii * RightT(p, q, c1, c2) - s.sit * RightI(p, q, c1, c2), 100_000);
    QuotientSigns(y * 100_000, -d);
    assert -(y * 100_000) == -y * 100_000;
  }

  /** The determinant and both numerators have the cross product as a factor. */
  lemma TwoRates(p: Point, q: Point, c1: int, c2: int)
    ensures var s, d := SumsOf([p, q]), Cross(p, q);
            && s.Det() == d * d && (d != 0 ==> d * d != 0)
            && RightI(p, q, c1, c2) * s.stt - RightT(p, q, c1, c2) * s.sit == (c1 * q.t - c2 * p.t) * d
            && s.sii * RightT(p, q, c1, c2) - s.sit * RightI(p, q, c1, c2) == -(c1 * q.i - c2 * p.i) * d
  {
    var s, d := SumsOf([p, q]), Cross(p, q);
    TwoSums(p, q);
    Combines(p, q, c1, c2, s.sit, s.stt, q.t * d, -(p.t * d));
    CombinesT(p, q, c1, c2, s.sii, s.sit, -(q.i * d), p.i * d);
    Factor(c1, q.t, c2, p.t, d);
    Factor(c1, q.i, c2, p.i, d);
    SquareSign(d);
    Negates(c1, q.i * d, c2, p.i * d, c1 * q.i - c2 * p.i, d);
  }

  lemma Negates(c1: int, a: int, c2: int, b: int, y: int, d: int)
    requires c1 * a - c2 * b == y * d
    ensures c1 * -a + c2 * b == -y * d
  {
    assert c1 * -a == -(c1 * a) && -y * d == -(y * d);
  }

  lemma Factor(c1: int, a: int, c2: int, b: int, d: int)
    ensures c1 * (a * d) - c2 * (b * d) == (c1 * a - c2 * b) * d
  {
  }

  lemma Combines(p: Point, q: Point, c1: int, c2: int, sit: int, stt: int, u: int, v: int)
    requires p.i * stt - p.t * sit == u && q.i * stt - q.t * sit == v
    ensures RightI(p, q, c1, c2) * stt - RightT(p, q, c1, c2) * sit == c1 * u + c2 * v
  {
    assert c1 * (p.i * stt - p.t * sit) == p.i * c1 * stt - p.t * c1 * sit;
    assert c2 * (q.i * stt - q.t * sit) == q.i * c2 * stt - q.t * c2 * sit;
  }

  lemma CombinesT(p: Point, q: Point, c1: int, c2: int, sii: int, sit: int, u: int, v: int)
    requires p.t * sii - p.i * sit == u && q.t * sii - q.i * sit == v
    ensures sii * RightT(p, q, c1, c2) - sit * RightI(p, q, c1, c2) == c1 * u + c2 * v
  {
    assert c1 * (p.t * sii - p.i * sit) == p.t * c1 * sii - p.i * c1 * sit;
    assert c2 * (q.t * sii - q.i * sit) == q.t * c2 * sii - q.i * c2 * sit;
  }

  lemma TwoSums(p: Point, q: Point)
    ensures var s := SumsOf([p, q]);
            var d := Cross(p, q);
            && s.Det() == d * d
            && p.i * s.stt - p.t * s.sit == q.t * d && q.i * s.stt - q.t * s.sit == -(p.t * d)
            && p.t * s.sii - p.i * s.sit == -(q.i * d) && q.t * s.sii - q.i * s.sit == p.i * d
  {
    TwoValues(p, q);
    DetIsPairSum([p, q]);
    TwoSumsT(p.i, p.t, q.i, q.t);
    TwoSumsT(q.i, q.t, p.i, p.t);
    TwoSumsT(p.t, p.i, q.t, q.i);
    TwoSumsT(q.t, q.i, p.t, p.i);
  }

  lemma TwoValues(p: Point, q: Point)
    ensures var s := SumsOf([p, q]);
            s.sii == p.i * p.i + q.i * q.i && s.sit == p.i * p.t + q.i * q.t && s.stt == p.t * p.t + q.t * q.t
    ensures PairSum([p, q]) == Cross(p, q) * Cross(p, q)
  {
    assert [p, q][..1] == [p] && [p][..0] == [];
    assert SumsOf([p]) == none.Plus(p) && SumsOf([p, q]) == SumsOf([p]).Plus(q);
    assert PairSum([p]) == 0 && CrossSum([p], q) == Cross(p, q) * Cross(p, q);
  }

  lemma TwoSumsT(i: int, t: int, j: int, u: int)
    ensures i * (t * t + u * u) - t * (i * t + j * u) == u * (i * u - j * t)
  {
    assert i * (t * t + u * u) == t * (i * t) + u * (i * u);
    assert t * (j * u) == u * (j * t);
  }

  lemma CancelQuotient(x: int, d: int, b: int, k: int)
    requires d != 0 && b == x * d && d * d != 0
    ensures Quotient(b * k, d * d) == Quotient(x * k, d)
  {
    SquareSign(d);
    var a := x * k;
    assert b * k == a * d;
    if d > 0 {
      assert b * k * d == a * (d * d);
      RatioQuotient(b * k, d * d, a, d);
    } else {
      assert b * k * -d == -a * (d * d);
      RatioQuotient(b * k, d * d, -a, -d);
      QuotientSigns(a, d);
    }
  }
}
