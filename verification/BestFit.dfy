/** Why the fit is called least squares (kernel/src/ipcstat.rs, `Accumulator::solve`): before
    truncation its rates leave the least squared error of all rational rates. Rates are kept
    as fractions `x/d` per input and `y/d` per millisecond, so everything stays integral. */
module BestFit {
  import opened LeastSquares

  /** `d` times the error of the rates `x/d`, `y/d` on one interval. */
  function Error(p: Point, series: Point -> nat, x: int, y: int, d: int): int {
    d * series(p) - x * p.i - y * p.t
  }

  /** `d * d` times the squared error of the rates on all intervals. */
  function Residual(ps: seq<Point>, series: Point -> nat, x: int, y: int, d: int): int {
    if ps == [] then 0
    else
      var e := Error(ps[|ps| - 1], series, x, y, d);
      Residual(ps[..|ps| - 1], series, x, y, d) + e * e
  }

  /** The sums of input times error and of time times error. */
  function GradientI(ps: seq<Point>, series: Point -> nat, x: int, y: int, d: int): int {
    if ps == [] then 0
    else GradientI(ps[..|ps| - 1], series, x, y, d) + ps[|ps| - 1].i * Error(ps[|ps| - 1], series, x, y, d)
  }

  function GradientT(ps: seq<Point>, series: Point -> nat, x: int, y: int, d: int): int {
    if ps == [] then 0
    else GradientT(ps[..|ps| - 1], series, x, y, d) + ps[|ps| - 1].t * Error(ps[|ps| - 1], series, x, y, d)
  }

  function Spread(ps: seq<Point>, u: int, v: int): (r: int)
    ensures r >= 0
  {
    if ps == [] then 0
    else
      var w := u * ps[|ps| - 1].i + v * ps[|ps| - 1].t;
      SquareSign(w);
      Spread(ps[..|ps| - 1], u, v) + w * w
  }

  // ---- Moving the rates ----------------------------------------------------------------

  lemma ErrorShift(p: Point, series: Point -> nat, x: int, y: int, d: int, u: int, v: int)
    ensures var e, w := Error(p, series, x, y, d), u * p.i + v * p.t;
            Error(p, series, x + u, y + v, d) == e - w
  {
    Distribute(x, u, p.i);
    Distribute(y, v, p.t);
  }

  lemma SquareOfDifference(e: int, w: int, u: int, i: int, v: int, t: int)
    requires w == u * i + v * t
    ensures (e - w) * (e - w) == e * e - 2 * (u * (i * e) + v * (t * e)) + w * w
  {
    assert (e - w) * (e - w) == e * e - 2 * (w * e) + w * w;
    assert (u * i + v * t) * e == u * (i * e) + v * (t * e);
  }

  lemma {:induction false} ResidualShift(ps: seq<Point>, series: Point -> nat, x: int, y: int, d: int, u: int, v: int)
    ensures Residual(ps, series, x + u, y + v, d) ==
            Residual(ps, series, x, y, d)
            - 2 * (u * GradientI(ps, series, x, y, d) + v * GradientT(ps, series, x, y, d)) + Spread(ps, u, v)
  {
    if ps != [] {
      var before, p := ps[..|ps| - 1], ps[|ps| - 1];
      ResidualShift(before, series, x, y, d, u, v);
      var e, w := Error(p, series, x, y, d), u * p.i + v * p.t;
      ErrorShift(p, series, x, y, d, u, v);
      SquareOfDifference(e, w, u, p.i, v, p.t);
      Distribute(GradientI(before, series, x, y, d), p.i * e, u);
      Distribute(GradientT(before, series, x, y, d), p.t * e, v);
    }
  }

  lemma ErrorTerm(k: int, c: int, i: int, t: int, x: int, y: int, d: int)
    ensures k * (d * c - x * i - y * t) == d * (k * c) - x * (k * i) - y * (k * t)
  {
    assert k * (d * c) == d * (k * c) && k * (x * i) == x * (k * i) && k * (y * t) == y * (k * t);
  }

  lemma {:induction false} GradientIs(ps: seq<Point>, series: Point -> nat, x: int, y: int, d: int)
    ensures var s := SumsOf(ps);
            && GradientI(ps, series, x, y, d) == d * Sic(ps, series) - x * s.sii - y * s.sit
            && GradientT(ps, series, x, y, d) == d * Stc(ps, series) - x * s.sit - y * s.stt
  {
    if ps != [] {
      var before, p := ps[..|ps| - 1], ps[|ps| - 1];
      GradientIs(before, series, x, y, d);
      GradientStep(SumsOf(before), p, series(p), Sic(before, series), Stc(before, series), x, y, d);
    }
  }

  lemma GradientStep(s: Sums, p: Point, c: int, sic: int, stc: int, x: int, y: int, d: int)
    ensures d * (sic + p.i * c) - x * (s.sii + p.i * p.i) - y * (s.sit + p.i * p.t) ==
            d * sic - x * s.sii - y * s.sit + p.i * (d * c - x * p.i - y * p.t)
    ensures d * (stc + p.t * c) - x * (s.sit + p.i * p.t) - y * (s.stt + p.t * p.t) ==
            d * stc - x * s.sit - y * s.stt + p.t * (d * c - x * p.i - y * p.t)
  {
    ErrorTerm(p.i, c, p.i, p.t, x, y, d);
    ErrorTerm(p.t, c, p.i, p.t, x, y, d);
    assert p.t * p.i == p.i * p.t;
    Distribute(sic, p.i * c, d);
    Distribute(stc, p.t * c, d);
    Distribute(s.sii, p.i * p.i, x);
    Distribute(s.sit, p.i * p.t, x);
    Distribute(s.sit, p.i * p.t, y);
    Distribute(s.stt, p.t * p.t, y);
  }

  lemma {:induction false} ResidualScale(ps: seq<Point>, series: Point -> nat, x: int, y: int, d: int, k: int)
    ensures Residual(ps, series, k * x, k * y, k * d) == k * k * Residual(ps, series, x, y, d)
  {
    if ps != [] {
      var before, p := ps[..|ps| - 1], ps[|ps| - 1];
      ResidualScale(before, series, x, y, d, k);
      var e := Error(p, series, x, y, d);
      ErrorScale(p, series, x, y, d, k);
      assert k * e * (k * e) == k * k * (e * e);
      Distribute(Residual(before, series, x, y, d), e * e, k * k);
    }
  }

  lemma ErrorScale(p: Point, series: Point -> nat, x: int, y: int, d: int, k: int)
    ensures Error(p, series, k * x, k * y, k * d) == k * Error(p, series, x, y, d)
  {
    var c := series(p);
    assert k * d * c == k * (d * c) && k * x * p.i == k * (x * p.i) && k * y * p.t == k * (y * p.t);
  }

  // ---- The least one -------------------------------------------------------------------

  /** The numerators `solve` divides by the determinant. */
  function RateI(s: Sums, sic: int, stc: int): int {
    sic * s.stt - stc * s.sit
  }

  function RateT(s: Sums, sic: int, stc: int): int {
    s.sii * stc - s.sit * sic
  }

  /** They solve the normal equations. */
  lemma NormalEquations(s: Sums, sic: int, stc: int)
    ensures s.Det() * sic == RateI(s, sic, stc) * s.sii + RateT(s, sic, stc) * s.sit
    ensures s.Det() * stc == RateI(s, sic, stc) * s.sit + RateT(s, sic, stc) * s.stt
  {
    NormalI(s.sii, s.sit, s.stt, sic, stc);
    NormalT(s.sii, s.sit, s.stt, sic, stc);
  }

  lemma NormalI(x: int, y: int, z: int, sic: int, stc: int)
    ensures (x * z - y * y) * sic == (sic * z - stc * y) * x + (x * stc - y * sic) * y
  {
    assert (sic * z - stc * y) * x == x * z * sic - x * y * stc;
    assert (x * stc - y * sic) * y == x * y * stc - y * y * sic;
    assert (x * z - y * y) * sic == x * z * sic - y * y * sic;
  }

  lemma NormalT(x: int, y: int, z: int, sic: int, stc: int)
    ensures (x * z - y * y) * stc == (sic * z - stc * y) * y + (x * stc - y * sic) * z
  {
    assert (sic * z - stc * y) * y == y * z * sic - y * y * stc;
    assert (x * stc - y * sic) * z == x * z * stc - y * z * sic;
    assert (x * z - y * y) * stc == x * z * stc - y * y * stc;
  }

  lemma GradientVanishes(ps: seq<Point>, series: Point -> nat, k: int)
    ensures var s, sic, stc := SumsOf(ps), Sic(ps, series), Stc(ps, series);
            && GradientI(ps, series, k * RateI(s, sic, stc), k * RateT(s, sic, stc), k * s.Det()) == 0
            && GradientT(ps, series, k * RateI(s, sic, stc), k * RateT(s, sic, stc), k * s.Det()) == 0
  {
    var s, sic, stc := SumsOf(ps), Sic(ps, series), Stc(ps, series);
    var a, b, d := RateI(s, sic, stc), RateT(s, sic, stc), s.Det();
    GradientIs(ps, series, k * a, k * b, k * d);
    NormalEquations(s, sic, stc);
    ScaleEquation(k, d, sic, a, s.sii, b, s.sit);
    ScaleEquation(k, d, stc, a, s.sit, b, s.stt);
  }

  lemma ScaleEquation(k: int, d: int, c: int, a: int, x: int, b: int, y: int)
    requires d * c == a * x + b * y
    ensures k * d * c - k * a * x - k * b * y == 0
  {
    assert k * (d * c) == k * (a * x) + k * (b * y);
  }

  /** No rational rates `x/d`, `y/d` have a smaller squared error than those `solve` truncates:
      the errors, both brought to the denominator `d * d * det * det`, compare so. */
  lemma LeastSquaredError(ps: seq<Point>, series: Point -> nat, x: int, y: int, d: int)
    ensures var s, sic, stc := SumsOf(ps), Sic(ps, series), Stc(ps, series);
            d * d * Residual(ps, series, RateI(s, sic, stc), RateT(s, sic, stc), s.Det()) <=
            s.Det() * s.Det() * Residual(ps, series, x, y, d)
  {
    var s, sic, stc := SumsOf(ps), Sic(ps, series), Stc(ps, series);
    var a, b, det := RateI(s, sic, stc), RateT(s, sic, stc), s.Det();
    ResidualScale(ps, series, a, b, det, d);
    ResidualScale(ps, series, x, y, d, det);
    ResidualShift(ps, series, d * a, d * b, d * det, det * x - d * a, det * y - d * b);
    GradientVanishes(ps, series, d);
    assert det * d == d * det;
  }

  /** A fit's rates are, truncated to hundredths, those of least squared error over its own
      intervals and series. */
  lemma FitIsLeast(ps: seq<Point>, x: int, y: int, d: int)
    requires Solve(SumsOf(ps)).Some?
    ensures var f, s := Solve(SumsOf(ps)).value, SumsOf(ps);
            && f.syscallsPerInput == Narrow(Quotient(RateI(s, s.sicA, s.stcA) * 100, s.Det()))
            && f.syscallsPerSecond == Narrow(Quotient(RateT(s, s.sicA, s.stcA) * 100_000, s.Det()))
            && f.switchesPerInput == Narrow(Quotient(RateI(s, s.sicB, s.stcB) * 100, s.Det()))
            && f.switchesPerSecond == Narrow(Quotient(RateT(s, s.sicB, s.stcB) * 100_000, s.Det()))
            && d * d * Residual(ps, Syscalls(), RateI(s, s.sicA, s.stcA), RateT(s, s.sicA, s.stcA), s.Det()) <=
               s.Det() * s.Det() * Residual(ps, Syscalls(), x, y, d)
            && d * d * Residual(ps, Switches(), RateI(s, s.sicB, s.stcB), RateT(s, s.sicB, s.stcB), s.Det()) <=
               s.Det() * s.Det() * Residual(ps, Switches(), x, y, d)
  {
    SeriesSums(ps);
    LeastSquaredError(ps, Syscalls(), x, y, d);
    LeastSquaredError(ps, Switches(), x, y, d);
  }
}
