/**
 The memory slope of a soak: the least-squares line through `(seconds, bytes)` samples, in MiB
 per hour (gates/bench/soak.py `slope`), over exact numbers.
 */
module SoakSlope {
  import opened Options

  datatype Sample = Sample(time: real, bytes: real)

  const MIB: real := 1048576.0
  const HOUR: real := 3600.0

  function Sum(s: seq<real>): real { if s == [] then 0.0 else Sum(s[..|s| - 1]) + s[|s| - 1] }

  function Mean(s: seq<real>): real
    requires |s| > 0
  {
    Sum(s) / |s| as real
  }

  function Dot(u: seq<real>, v: seq<real>): real
    requires |u| == |v|
  {
    if u == [] then 0.0 else Dot(u[..|u| - 1], v[..|v| - 1]) + u[|u| - 1] * v[|v| - 1]
  }

  /** The deviations from `m`. */
  function Centre(s: seq<real>, m: real): (r: seq<real>)
    ensures |r| == |s| && forall i :: 0 <= i < |s| ==> r[i] == s[i] - m
  {
    seq(|s|, i requires 0 <= i < |s| => s[i] - m)
  }

  function Times(samples: seq<Sample>): (xs: seq<real>)
    ensures |xs| == |samples| && forall i :: 0 <= i < |samples| ==> xs[i] == samples[i].time - samples[0].time
  {
    seq(|samples|, i requires 0 <= i < |samples| => samples[i].time - samples[0].time)
  }

  function Memory(samples: seq<Sample>): (ys: seq<real>)
    ensures |ys| == |samples| && forall i :: 0 <= i < |samples| ==> ys[i] == samples[i].bytes / MIB
  {
    seq(|samples|, i requires 0 <= i < |samples| => samples[i].bytes / MIB)
  }

  /** The spread of the times and their cross term with the memory, both about the means. */
  function Spread(xs: seq<real>): real
    requires |xs| > 0
  {
    Dot(Centre(xs, Mean(xs)), Centre(xs, Mean(xs)))
  }

  function Cross(xs: seq<real>, ys: seq<real>): real
    requires |xs| == |ys| > 0
  {
    Dot(Centre(xs, Mean(xs)), Centre(ys, Mean(ys)))
  }

  /** Cross over spread: the slope of the fitted line, None without a spread. */
  function Fitted(xs: seq<real>, ys: seq<real>): Option<real>
    requires |xs| == |ys| > 0
  {
    if Spread(xs) == 0.0 then None else Some(Cross(xs, ys) / Spread(xs))
  }

  function Slope(samples: seq<Sample>): Option<real> {
    if |samples| < 2 then None
    else
      var b := Fitted(Times(samples), Memory(samples));
      if b.None? then None else Some(b.value * HOUR)
  }

  // ----- vectors ------------------------------------------------------------------------------------

  function Minus(u: seq<real>, v: seq<real>): (s: seq<real>)
    requires |u| == |v|
    ensures |s| == |u| && forall i :: 0 <= i < |u| ==> s[i] == u[i] - v[i]
  {
    seq(|u|, i requires 0 <= i < |u| => u[i] - v[i])
  }

  function Product(q: real, x: real): real { q * x }

  function Scale(q: real, u: seq<real>): (s: seq<real>)
    ensures |s| == |u| && forall i :: 0 <= i < |u| ==> s[i] == Product(q, u[i])
  {
    seq(|u|, i requires 0 <= i < |u| => Product(q, u[i]))
  }

  /** The vector q * u + p. */
  function Affine(u: seq<real>, p: real, q: real): (s: seq<real>)
    ensures |s| == |u| && forall i :: 0 <= i < |u| ==> s[i] == p + Product(q, u[i])
  {
    seq(|u|, i requires 0 <= i < |u| => p + Product(q, u[i]))
  }

  lemma SquareOfDifference(x: real, y: real)
    ensures (x - y) * (x - y) == x * x - 2.0 * (x * y) + y * y
  {
  }

  lemma {:induction false} DotMinusSquare(u: seq<real>, v: seq<real>)
    requires |u| == |v|
    ensures Dot(Minus(u, v), Minus(u, v)) == Dot(u, u) - 2.0 * Dot(u, v) + Dot(v, v)
  {
    if u != [] {
      var k := |u| - 1;
      DotMinusSquare(u[..k], v[..k]);
      assert Minus(u, v)[..k] == Minus(u[..k], v[..k]);
      SquareOfDifference(u[k], v[k]);
    }
  }

  lemma DifferenceTimes(r: real, x: real, y: real)
    ensures r * (x - y) == r * x - r * y
  {
  }

  lemma {:induction false} DotMinus(r: seq<real>, u: seq<real>, v: seq<real>)
    requires |r| == |u| == |v|
    ensures Dot(r, Minus(u, v)) == Dot(r, u) - Dot(r, v)
  {
    if r != [] {
      var k := |r| - 1;
      DotMinus(r[..k], u[..k], v[..k]);
      assert Minus(u, v)[..k] == Minus(u[..k], v[..k]);
      DifferenceTimes(r[k], u[k], v[k]);
    }
  }

  lemma ScaledStep(q: real, D: real, r: real, x: real, D': real)
    requires D' == D + r * x
    ensures Product(q, D) + r * Product(q, x) == Product(q, D')
  {
  }

  lemma {:induction false} DotScale(r: seq<real>, q: real, u: seq<real>)
    requires |r| == |u|
    ensures Dot(r, Scale(q, u)) == Product(q, Dot(r, u))
  {
    if r != [] {
      var k := |r| - 1;
      DotScale(r[..k], q, u[..k]);
      assert Scale(q, u)[..k] == Scale(q, u[..k]);
      ScaledStep(q, Dot(r[..k], u[..k]), r[k], u[k], Dot(r, u));
    }
  }

  lemma AffineStep(p: real, S: real, r: real, w: real, S': real)
    requires S' == S + r
    ensures Product(p, S) + r * (p + w) == Product(p, S') + r * w
  {
  }

  lemma {:induction false} DotAffine(r: seq<real>, u: seq<real>, p: real, q: real)
    requires |r| == |u|
    ensures Dot(r, Affine(u, p, q)) == Product(p, Sum(r)) + Dot(r, Scale(q, u))
  {
    if r != [] {
      var k := |r| - 1;
      DotAffine(r[..k], u[..k], p, q);
      assert Affine(u, p, q)[..k] == Affine(u[..k], p, q);
      assert Scale(q, u)[..k] == Scale(q, u[..k]);
      AffineStep(p, Sum(r[..k]), r[k], Product(q, u[k]), Sum(r));
    }
  }

  lemma SumStep(q: real, S: real, x: real, S': real)
    requires S' == S + x
    ensures Product(q, S) + Product(q, x) == Product(q, S')
  {
  }

  lemma {:induction false} SumMinusScale(v: seq<real>, c: real, u: seq<real>)
    requires |v| == |u|
    ensures Sum(Minus(v, Scale(c, u))) == Sum(v) - Product(c, Sum(u))
  {
    if v != [] {
      var k := |v| - 1;
      SumMinusScale(v[..k], c, u[..k]);
      assert Minus(v, Scale(c, u))[..k] == Minus(v[..k], Scale(c, u[..k]));
      SumStep(c, Sum(u[..k]), u[k], Sum(u));
    }
  }

  lemma {:induction false} SumCentre(s: seq<real>, m: real)
    ensures Sum(Centre(s, m)) == Sum(s) - Product(|s| as real, m)
  {
    if s != [] {
      var k := |s| - 1;
      SumCentre(s[..k], m);
      assert Centre(s, m)[..k] == Centre(s[..k], m);
      assert Product(|s| as real, m) == Product(k as real, m) + m;
    }
  }

  /** Deviations from the mean sum to zero. */
  lemma MeanCentres(s: seq<real>)
    requires |s| > 0
    ensures Sum(Centre(s, Mean(s))) == 0.0
  {
    SumCentre(s, Mean(s));
    Quotient(Sum(s), |s| as real, Mean(s));
  }

  lemma Quotient(a: real, b: real, c: real)
    requires b != 0.0 && c == a / b
    ensures a == Product(c, b) && a == Product(b, c)
  {
  }

  lemma {:induction false} DotSymmetric(u: seq<real>, v: seq<real>)
    requires |u| == |v|
    ensures Dot(u, v) == Dot(v, u)
  {
    if u != [] { DotSymmetric(u[..|u| - 1], v[..|v| - 1]); }
  }

  lemma Square(d: real) returns (s: real)
    ensures s == Product(d, d) && s >= 0.0
    ensures s == 0.0 <==> d == 0.0
  {
    s := Product(d, d);
    if d > 0.0 {
      Positive(d, d);
      assert s > 0.0;
    } else if d < 0.0 {
      Negative(d);
      assert s > 0.0;
    } else {
      ZeroSlope(d);
      assert s == 0.0;
    }
  }

  lemma Positive(a: real, b: real)
    requires a > 0.0 && b > 0.0
    ensures Product(a, b) > 0.0
  {
  }

  lemma Negative(d: real)
    requires d < 0.0
    ensures Product(d, d) > 0.0
  {
    var e := -d;
    Positive(e, e);
    DifferenceTimes(d, 0.0, e);
    DifferenceTimes(e, 0.0, d);
    assert d * 0.0 == 0.0 && e * 0.0 == 0.0;
  }

  lemma {:induction false} SquaresPositive(u: seq<real>)
    ensures Dot(u, u) >= 0.0
    ensures Dot(u, u) == 0.0 <==> forall i :: 0 <= i < |u| ==> u[i] == 0.0
  {
    if u != [] {
      var k := |u| - 1;
      SquaresPositive(u[..k]);
      var last := Square(u[k]);
      assert Dot(u, u) == Dot(u[..k], u[..k]) + Product(u[k], u[k]);
      assert forall i :: 0 <= i < k ==> u[i] == u[..k][i];
    }
  }

  // ----- the fitted line is the best line -------------------------------------------------------------

  /** The errors of the line y = a + b * x at the samples. */
  function Residuals(xs: seq<real>, ys: seq<real>, a: real, b: real): (r: seq<real>)
    requires |xs| == |ys|
    ensures |r| == |xs|
  {
    Minus(ys, Affine(xs, a, b))
  }

  /** Sum of squared errors of the line y = a + b * x. */
  function Error(xs: seq<real>, ys: seq<real>, a: real, b: real): real
    requires |xs| == |ys|
  {
    Dot(Residuals(xs, ys, a, b), Residuals(xs, ys, a, b))
  }

  lemma PointResidual(x: real, y: real, mx: real, my: real, a: real, b: real, c: real)
    ensures y - (a + Product(b, x)) == ((y - my) - Product(c, x - mx)) - ((a + Product(b, mx) - my) + Product(b - c, x - mx))
  {
  }

  /** What is left of the memory deviations once the fitted slope is taken out. */
  ghost function Rest(xs: seq<real>, ys: seq<real>, c: real): (r: seq<real>)
    requires |xs| == |ys| > 0
    ensures |r| == |xs|
  {
    Minus(Centre(ys, Mean(ys)), Scale(c, Centre(xs, Mean(xs))))
  }

  /** The distance of a line from the fitted one, sample by sample. */
  ghost function Apart(xs: seq<real>, ys: seq<real>, c: real, a: real, b: real): (d: seq<real>)
    requires |xs| == |ys| > 0
    ensures |d| == |xs|
  {
    Affine(Centre(xs, Mean(xs)), a + Product(b, Mean(xs)) - Mean(ys), b - c)
  }

  lemma ResidualsSplit(xs: seq<real>, ys: seq<real>, c: real, a: real, b: real)
    requires |xs| == |ys| > 0
    ensures Residuals(xs, ys, a, b) == Minus(Rest(xs, ys, c), Apart(xs, ys, c, a, b))
  {
    forall i | 0 <= i < |xs|
      ensures Residuals(xs, ys, a, b)[i] == Minus(Rest(xs, ys, c), Apart(xs, ys, c, a, b))[i]
    {
      PointResidual(xs[i], ys[i], Mean(xs), Mean(ys), a, b, c);
    }
  }

  /** The normal equations: what is left sums to zero, and is orthogonal to the times. */
  lemma NormalEquations(xs: seq<real>, ys: seq<real>, c: real)
    requires |xs| == |ys| > 0 && Fitted(xs, ys) == Some(c)
    ensures Sum(Rest(xs, ys, c)) == 0.0 && Dot(Rest(xs, ys, c), Centre(xs, Mean(xs))) == 0.0
  {
    var u, v := Centre(xs, Mean(xs)), Centre(ys, Mean(ys));
    MeanCentres(xs);
    MeanCentres(ys);
    SumMinusScale(v, c, u);
    DotSymmetric(Rest(xs, ys, c), u);
    DotMinus(u, v, Scale(c, u));
    DotScale(u, c, u);
    Quotient(Cross(xs, ys), Spread(xs), c);
  }

  /** A line's error is that of the fitted line plus the squared distance between the two lines. */
  lemma ErrorDecomposes(xs: seq<real>, ys: seq<real>, c: real, a: real, b: real)
    requires |xs| == |ys| > 0 && Fitted(xs, ys) == Some(c)
    ensures Error(xs, ys, a, b) == Dot(Rest(xs, ys, c), Rest(xs, ys, c)) + Dot(Apart(xs, ys, c, a, b), Apart(xs, ys, c, a, b))
  {
    var u, r, d := Centre(xs, Mean(xs)), Rest(xs, ys, c), Apart(xs, ys, c, a, b);
    ResidualsSplit(xs, ys, c, a, b);
    DotMinusSquare(r, d);
    DotAffine(r, u, a + Product(b, Mean(xs)) - Mean(ys), b - c);
    DotScale(r, b - c, u);
    NormalEquations(xs, ys, c);
    Zero(a + Product(b, Mean(xs)) - Mean(ys));
    Zero(b - c);
  }

  lemma Zero(q: real)
    ensures Product(q, 0.0) == 0.0
  {
  }

  /** A slope is fitted exactly when the samples have two distinct times. */
  lemma FittedIffSpread(xs: seq<real>, ys: seq<real>)
    requires |xs| == |ys| > 0
    ensures Fitted(xs, ys).Some? <==> exists i, j :: 0 <= i < |xs| && 0 <= j < |xs| && xs[i] != xs[j]
  {
    var mx := Mean(xs);
    var u := Centre(xs, mx);
    SquaresPositive(u);
    if forall i, j :: 0 <= i < |xs| && 0 <= j < |xs| ==> xs[i] == xs[j] {
      MeanCentres(xs);
      ConstantSum(u, u[0]);
      Positive0(|xs| as real, u[0]);
    }
  }

  lemma Positive0(n: real, d: real)
    requires n > 0.0 && Product(n, d) == 0.0
    ensures d == 0.0
  {
  }

  lemma {:induction false} ConstantSum(xs: seq<real>, v: real)
    requires forall i :: 0 <= i < |xs| ==> xs[i] == v
    ensures Sum(xs) == Product(|xs| as real, v)
  {
    if xs != [] {
      ConstantSum(xs[..|xs| - 1], v);
      assert Product(|xs| as real, v) == Product((|xs| - 1) as real, v) + v;
    }
  }

  lemma ZeroApart(xs: seq<real>, ys: seq<real>, c: real, a0: real)
    requires |xs| == |ys| > 0 && a0 == Mean(ys) - Product(c, Mean(xs))
    ensures Dot(Apart(xs, ys, c, a0, c), Apart(xs, ys, c, a0, c)) == 0.0
  {
    var u, d0 := Centre(xs, Mean(xs)), Apart(xs, ys, c, a0, c);
    forall i | 0 <= i < |xs|
      ensures d0[i] == 0.0
    {
      ZeroSlope(u[i]);
    }
    SquaresPositive(d0);
  }

  /** Two lines that agree at two distinct times are one line. */
  lemma NotApart(xs: seq<real>, ys: seq<real>, c: real, a0: real, a: real, b: real)
    requires |xs| == |ys| > 0 && Fitted(xs, ys).Some? && a0 == Mean(ys) - Product(c, Mean(xs))
    requires Dot(Apart(xs, ys, c, a, b), Apart(xs, ys, c, a, b)) == 0.0
    ensures a == a0 && b == c
  {
    var u, d := Centre(xs, Mean(xs)), Apart(xs, ys, c, a, b);
    SquaresPositive(d);
    FittedIffSpread(xs, ys);
    var i, j :| 0 <= i < |xs| && 0 <= j < |xs| && xs[i] != xs[j];
    assert d[i] == 0.0 && d[j] == 0.0;
    TwoPoints(a + Product(b, Mean(xs)) - Mean(ys), b - c, u[i], u[j]);
  }

  /** No line has a smaller sum of squared errors than the fitted one, and every other line has a larger one. */
  lemma LeastSquares(xs: seq<real>, ys: seq<real>, c: real, a0: real, a: real, b: real)
    requires |xs| == |ys| > 0 && Fitted(xs, ys) == Some(c) && a0 == Mean(ys) - Product(c, Mean(xs))
    ensures Error(xs, ys, a0, c) <= Error(xs, ys, a, b)
    ensures Error(xs, ys, a0, c) == Error(xs, ys, a, b) ==> a == a0 && b == c
  {
    var d := Apart(xs, ys, c, a, b);
    ErrorDecomposes(xs, ys, c, a0, c);
    ErrorDecomposes(xs, ys, c, a, b);
    ZeroApart(xs, ys, c, a0);
    SquaresPositive(d);
    if Dot(d, d) == 0.0 { NotApart(xs, ys, c, a0, a, b); }
  }

  lemma ZeroSlope(x: real)
    ensures Product(0.0, x) == 0.0
  {
  }

  lemma TwoPoints(p: real, q: real, x: real, y: real)
    requires p + Product(q, x) == 0.0 && p + Product(q, y) == 0.0 && x != y
    ensures p == 0.0 && q == 0.0
  {
    DifferenceTimes(q, x, y);
    NonZero(q, x - y);
    ZeroSlope(x);
  }

  lemma NonZero(a: real, b: real)
    requires a * b == 0.0 && b != 0.0
    ensures a == 0.0
  {
  }

  // ----- exactness and invariance ------------------------------------------------------------------------

  /** Samples that lie on a line are fitted with exactly that line's slope. */
  lemma ExactOnLines(xs: seq<real>, ys: seq<real>, p: real, q: real)
    requires |xs| == |ys| > 0 && Fitted(xs, ys).Some? && ys == Affine(xs, p, q)
    ensures Fitted(xs, ys) == Some(q)
  {
    var c := Fitted(xs, ys).value;
    forall i | 0 <= i < |xs|
      ensures Residuals(xs, ys, p, q)[i] == 0.0
    {
    }
    SquaresPositive(Residuals(xs, ys, p, q));
    SquaresPositive(Residuals(xs, ys, Mean(ys) - Product(c, Mean(xs)), c));
    LeastSquares(xs, ys, c, Mean(ys) - Product(c, Mean(xs)), p, q);
  }

  lemma {:induction false} SumShifted(s: seq<real>, t: seq<real>, d: real)
    requires |s| == |t| && forall i :: 0 <= i < |s| ==> t[i] == s[i] + d
    ensures Sum(t) == Sum(s) + Product(|s| as real, d)
  {
    if s != [] {
      SumShifted(s[..|s| - 1], t[..|t| - 1], d);
      assert Product(|s| as real, d) == Product((|s| - 1) as real, d) + d;
    } else {
      ZeroSlope(d);
    }
  }

  lemma MeanShifted(s: seq<real>, t: seq<real>, d: real)
    requires |s| == |t| > 0 && forall i :: 0 <= i < |s| ==> t[i] == s[i] + d
    ensures Mean(t) == Mean(s) + d && Centre(t, Mean(t)) == Centre(s, Mean(s))
  {
    SumShifted(s, t, d);
    ShiftedQuotient(Sum(s), |s| as real, d);
  }

  lemma ShiftedQuotient(a: real, n: real, d: real)
    requires n > 0.0
    ensures (a + Product(n, d)) / n == a / n + d
  {
  }

  /** Shifting every time or every memory value leaves the slope alone. */
  lemma SlopeShifts(samples: seq<Sample>, moved: seq<Sample>, dt: real, dm: real)
    requires |moved| == |samples|
    requires forall i :: 0 <= i < |samples| ==> moved[i] == Sample(samples[i].time + dt, samples[i].bytes + dm)
    ensures Slope(moved) == Slope(samples)
  {
    if |samples| >= 2 {
      assert Times(moved) == Times(samples);
      forall i | 0 <= i < |samples|
        ensures Memory(moved)[i] == Memory(samples)[i] + dm / MIB
      {
      }
      MeanShifted(Memory(samples), Memory(moved), dm / MIB);
    }
  }

  /** Which sample comes first does not matter: the slope is that of the plain times. */
  lemma SlopeOfTimes(samples: seq<Sample>, xs: seq<real>)
    requires |samples| >= 2 && |xs| == |samples| && forall i :: 0 <= i < |samples| ==> xs[i] == samples[i].time
    ensures Fitted(Times(samples), Memory(samples)) == Fitted(xs, Memory(samples))
  {
    MeanShifted(Times(samples), xs, samples[0].time);
  }

  /** A slope is given exactly when two samples have different times. */
  lemma SlopeExists(samples: seq<Sample>)
    ensures Slope(samples).Some? <==> exists i, j :: 0 <= i < |samples| && 0 <= j < |samples| && samples[i].time != samples[j].time
  {
    if |samples| >= 2 {
      FittedIffSpread(Times(samples), Memory(samples));
      var xs := Times(samples);
      if i, j :| 0 <= i < |samples| && 0 <= j < |samples| && samples[i].time != samples[j].time {
        assert xs[i] != xs[j];
      }
      if i, j :| 0 <= i < |xs| && 0 <= j < |xs| && xs[i] != xs[j] {
        assert samples[i].time != samples[j].time;
      }
    }
  }

  /** Memory that grows by `rate` times 1048576 bytes in every 3600 seconds has slope `rate`. */
  lemma MibPerHour(samples: seq<Sample>, base: real, rate: real)
    requires Slope(samples).Some?
    requires forall i :: 0 <= i < |samples| ==> samples[i].bytes == base + Product(rate * 1048576.0, samples[i].time / 3600.0)
    ensures Slope(samples) == Some(rate)
  {
    var t0, q := samples[0].time, rate / 3600.0;
    var p := base / 1048576.0 + Product(q, t0);
    var xs, ys := Times(samples), Memory(samples);
    forall i | 0 <= i < |samples| ensures ys[i] == p + Product(q, xs[i]) {
      MibAt(base, rate, samples[i].time, t0);
    }
    assert ys == Affine(xs, p, q);
    ExactOnLines(xs, ys, p, q);
  }

  lemma MibAt(base: real, rate: real, t: real, t0: real)
    ensures (base + Product(rate * 1048576.0, t / 3600.0)) / 1048576.0
            == base / 1048576.0 + Product(rate / 3600.0, t0) + Product(rate / 3600.0, t - t0)
  {
    assert Product(rate * 1048576.0, t / 3600.0) / 1048576.0 == rate * t / 3600.0;
    assert Product(rate / 3600.0, t0) + Product(rate / 3600.0, t - t0) == rate * t / 3600.0 by {
      DifferenceTimes(rate / 3600.0, t, t0);
    }
  }
}
