/** Rolling correlation (src/correlation_analyzer.py). Square roots are whatever
    function the caller supplies that returns the non-negative root. */
module Correlation {
  import opened Basics

  // ---------------------------------------------------------------- sums

  function Sum(xs: seq<real>): real
    decreases xs
  {
    if xs == [] then 0.0 else Sum(xs[..|xs| - 1]) + xs[|xs| - 1]
  }

  function Times(x: real, y: real): real { x * y }

  function Dot(a: seq<real>, b: seq<real>): real
    requires |a| == |b|
    decreases a
  {
    if a == [] then 0.0
    else Dot(a[..|a| - 1], b[..|b| - 1]) + Times(a[|a| - 1], b[|b| - 1])
  }

  function Mean(xs: seq<real>): real
    requires xs != []
  {
    Sum(xs) / (|xs| as real)
  }

  function Centered(xs: seq<real>): (cs: seq<real>)
    requires xs != []
    ensures |cs| == |xs|
  {
    seq(|xs|, i requires 0 <= i < |xs| => xs[i] - Mean(xs))
  }

  function Covariance(xs: seq<real>, ys: seq<real>): real
    requires |xs| == |ys| > 0
  {
    Dot(Centered(xs), Centered(ys)) / (|xs| as real)
  }

  function Variance(xs: seq<real>): real
    requires xs != []
  {
    Covariance(xs, xs)
  }

  ghost predicate IsRoot(root: real -> real)
  {
    forall v: real :: v >= 0.0 ==> root(v) >= 0.0 && Times(root(v), root(v)) == v
  }

  function Std(root: real -> real, xs: seq<real>): real
  {
    if |xs| < 2 then 0.0 else root(Variance(xs))
  }

  function Pearson(root: real -> real, xs: seq<real>, ys: seq<real>): real
    requires |xs| == |ys|
  {
    if |xs| < 2 then 0.0
    else
      Coefficient(Covariance(xs, ys), Std(root, xs), Std(root, ys))
  }

  function Coefficient(covariance: real, sx: real, sy: real): real
  {
    if sx == 0.0 || sy == 0.0 then 0.0
    else
      ProductNotZero(sx, sy);
      covariance / Times(sx, sy)
  }

  // ---------------------------------------------------------------- products, as facts about Times

  lemma ProductNotZero(x: real, y: real)
    requires x != 0.0 && y != 0.0
    ensures Times(x, y) != 0.0
  {}

  lemma SquareNotNegative(x: real)
    ensures Times(x, x) >= 0.0
  {}

  lemma SquarePositive(x: real)
    requires x > 0.0
    ensures Times(x, x) > 0.0
  {
    SquareNotNegative(x);
    ProductNotZero(x, x);
  }

  lemma NotNegative(x: real, y: real)
    requires x >= 0.0 && y >= 0.0
    ensures Times(x, y) >= 0.0
  {}

  lemma Distribute(k: real, x: real, y: real)
    ensures Times(k, x + y) == Times(k, x) + Times(k, y)
  {}

  lemma Regroup(u: real, v: real, x: real, y: real)
    ensures Times(Times(u, v), Times(x, y)) == Times(Times(u, x), Times(v, y))
  {}

  lemma Associate(x: real, y: real, z: real)
    ensures Times(Times(x, y), z) == Times(x, Times(y, z))
  {}

  lemma Commute(x: real, y: real)
    ensures Times(x, y) == Times(y, x)
  {}

  lemma CancelFactor(u: real, v: real, m: real)
    requires m > 0.0 && Times(u, m) <= Times(v, m)
    ensures u <= v
  {}

  lemma QuotientTimes(u: real, n: real)
    requires n != 0.0
    ensures Times(u / n, n) == u
  {}

  lemma QuotientIs(u: real, n: real, q: real)
    requires n != 0.0 && u == Times(q, n)
    ensures u / n == q
  {}

  lemma LargerSquare(x: real, s: real)
    requires x > s >= 0.0
    ensures Times(x, x) > Times(s, s)
  {
    var d := x - s;
    assert x * x == s * s + 2.0 * (d * s) + d * d;
    assert d * s >= 0.0 by { NotNegative(d, s); }
    assert d * d > 0.0 by { SquarePositive(d); }
  }

  lemma SameRoot(a: real, b: real)
    requires a >= 0.0 && b >= 0.0 && Times(a, a) == Times(b, b)
    ensures a == b
  {
    hide Times;
    if a > b { LargerSquare(a, b); }
    if b > a { LargerSquare(b, a); }
  }

  /** From squares to magnitudes. */
  lemma RootBound(c: real, s: real)
    requires s >= 0.0 && Times(c, c) <= Times(s, s)
    ensures -s <= c <= s
  {
    if c > s { LargerSquare(c, s); }
    if -c > s { LargerSquare(-c, s); }
  }

  // ---------------------------------------------------------------- cauchy-Schwarz

  lemma {:induction false} DotSymmetric(a: seq<real>, b: seq<real>)
    requires |a| == |b|
    ensures Dot(a, b) == Dot(b, a)
    decreases a
  {
    if a != [] {
      DotSymmetric(a[..|a| - 1], b[..|b| - 1]);
    }
  }

  /** The squared length of `y * a - x * b`, expanded. */
  function Combined(aa: real, ab: real, bb: real, x: real, y: real): real
  {
    y * y * aa - 2.0 * x * y * ab + x * x * bb
  }

  lemma {:induction false} CombinationIsSquare(a: seq<real>, b: seq<real>, x: real, y: real)
    requires |a| == |b|
    ensures Combined(Dot(a, a), Dot(a, b), Dot(b, b), x, y) >= 0.0
    decreases a
  {
    hide Times;
    if a == [] {
      assert Combined(0.0, 0.0, 0.0, x, y) == 0.0;
    } else {
      hide Combined;
      var p, q := a[|a| - 1], b[|b| - 1];
      var front, back := a[..|a| - 1], b[..|b| - 1];
      CombinationIsSquare(front, back, x, y);
      SquareNotNegative(y * p - x * q);
      ExpandSquare(Dot(front, front), Dot(front, back), Dot(back, back), p, q, x, y);
    }
  }

  lemma ExpandSquare(aa: real, ab: real, bb: real, p: real, q: real, x: real, y: real)
    ensures Combined(aa + Times(p, p), ab + Times(p, q), bb + Times(q, q), x, y)
         == Combined(aa, ab, bb, x, y) + Times(y * p - x * q, y * p - x * q)
  {}

  lemma {:induction false} CauchySchwarz(a: seq<real>, b: seq<real>)
    requires |a| == |b|
    ensures Dot(a, a) >= 0.0
    ensures Times(Dot(a, b), Dot(a, b)) <= Times(Dot(a, a), Dot(b, b))
    decreases a
  {
    if a != [] {
      hide Times, Combined;
      var p, q := a[|a| - 1], b[|b| - 1];
      var front, back := a[..|a| - 1], b[..|b| - 1];
      CauchySchwarz(front, back);
      CombinationIsSquare(front, back, p, q);
      SquareNotNegative(p);
      ExpandProduct(Dot(front, front), Dot(front, back), Dot(back, back), p, q);
    }
  }

  lemma ExpandProduct(aa: real, ab: real, bb: real, p: real, q: real)
    ensures Times(aa + Times(p, p), bb + Times(q, q)) - Times(ab + Times(p, q), ab + Times(p, q))
         == (Times(aa, bb) - Times(ab, ab)) + Combined(aa, ab, bb, p, q)
  {}

  // ---------------------------------------------------------------- means and covariances

  /** The deviations from the mean add up to nothing. */
  lemma DeviationsCancel(xs: seq<real>)
    requires xs != []
    ensures Sum(Centered(xs)) == 0.0
  {
    SumShifted(xs, Centered(xs), Mean(xs));
    QuotientTimes(Sum(xs), |xs| as real);
    Commute(Mean(xs), |xs| as real);
  }

  lemma {:induction false} SumShifted(xs: seq<real>, cs: seq<real>, m: real)
    requires |cs| == |xs| && forall i :: 0 <= i < |xs| ==> cs[i] == xs[i] - m
    ensures Sum(cs) == Sum(xs) - Times(|xs| as real, m)
    decreases xs
  {
    if xs != [] {
      var n := |xs| - 1;
      SumShifted(xs[..n], cs[..n], m);
      DistributeRight(n as real, 1.0, m);
      assert Times(1.0, m) == m;
    }
  }

  /** The covariance is the mean product less the product of the means. */
  lemma CovarianceIs(xs: seq<real>, ys: seq<real>)
    requires |xs| == |ys| > 0
    ensures Covariance(xs, ys) == Dot(xs, ys) / (|xs| as real) - Sum(xs) / (|xs| as real) * (Sum(ys) / (|ys| as real))
  {
    hide Times, Dot, Sum;
    var n, mx, my := |xs| as real, Mean(xs), Mean(ys);
    DotShifted(xs, ys, Centered(xs), Centered(ys), mx, my);
    QuotientTimes(Sum(xs), n);
    QuotientTimes(Sum(ys), n);
    QuotientTimes(Dot(xs, ys), n);
    MeansOut(Dot(xs, ys) / n, Sum(xs), Sum(ys), mx, my, n);
    QuotientIs(Dot(Centered(xs), Centered(ys)), n, Dot(xs, ys) / n - Times(mx, my));
    PlainTimes(mx, my);
  }

  lemma PlainTimes(x: real, y: real)
    ensures Times(x, y) == x * y
  {}

  lemma {:induction false} DotShifted(xs: seq<real>, ys: seq<real>, cs: seq<real>, ds: seq<real>, mx: real, my: real)
    requires |xs| == |ys| == |cs| == |ds|
    requires forall i :: 0 <= i < |xs| ==> cs[i] == xs[i] - mx && ds[i] == ys[i] - my
    ensures Dot(cs, ds) == Dot(xs, ys) - Times(my, Sum(xs)) - Times(mx, Sum(ys)) + Times(|xs| as real, Times(mx, my))
    decreases xs
  {
    hide Times;
    var n := |xs| - 1;
    if xs == [] {
      ZeroTimes(mx);
      ZeroTimes(my);
      ZeroTimes(Times(mx, my));
    } else {
      DotShifted(xs[..n], ys[..n], cs[..n], ds[..n], mx, my);
      ShiftedProduct(xs[n], ys[n], mx, my);
      Distribute(my, Sum(xs[..n]), xs[n]);
      Distribute(mx, Sum(ys[..n]), ys[n]);
      DistributeRight(n as real, 1.0, Times(mx, my));
      PlainTimes(1.0, Times(mx, my));
      assert Times(my, Sum(xs)) == Times(my, Sum(xs[..n])) + Times(my, xs[n]);
      assert Times(|xs| as real, Times(mx, my)) == Times(n as real, Times(mx, my)) + Times(mx, my);
    }
  }

  lemma ZeroTimes(x: real)
    ensures Times(x, 0.0) == 0.0 && Times(0.0, x) == 0.0
  {}

  lemma ShiftedProduct(x: real, y: real, mx: real, my: real)
    ensures Times(x - mx, y - my) == Times(x, y) - Times(my, x) - Times(mx, y) + Times(mx, my)
  {}

  lemma MeansOut(xy: real, sx: real, sy: real, mx: real, my: real, n: real)
    requires sx == Times(mx, n) && sy == Times(my, n)
    ensures Times(xy, n) - Times(my, sx) - Times(mx, sy) + Times(n, Times(mx, my)) == Times(xy - Times(mx, my), n)
  {}

  // ---------------------------------------------------------------- the coefficient

  lemma VarianceNotNegative(xs: seq<real>)
    requires xs != []
    ensures Variance(xs) >= 0.0
  {
    CauchySchwarz(Centered(xs), Centered(xs));
    NotNegativeQuotient(Dot(Centered(xs), Centered(xs)), |xs| as real);
  }

  lemma NotNegativeQuotient(u: real, n: real)
    requires u >= 0.0 && n > 0.0
    ensures u / n >= 0.0
  {}

  /** The covariance squared is at most the product of the variances. */
  lemma CovarianceBound(xs: seq<real>, ys: seq<real>)
    requires |xs| == |ys| > 0
    ensures Times(Covariance(xs, ys), Covariance(xs, ys)) <= Times(Variance(xs), Variance(ys))
  {
    hide Times, Dot;
    var a, b, n := Centered(xs), Centered(ys), |xs| as real;
    CauchySchwarz(a, b);
    DivideBoth(Dot(a, b), Dot(a, a), Dot(b, b), n);
  }

  lemma DivideBoth(ab: real, aa: real, bb: real, n: real)
    requires n > 0.0 && Times(ab, ab) <= Times(aa, bb)
    ensures Times(ab / n, ab / n) <= Times(aa / n, bb / n)
  {
    hide Times;
    QuotientTimes(ab, n);
    QuotientTimes(aa, n);
    QuotientTimes(bb, n);
    Regroup(ab / n, ab / n, n, n);
    Regroup(aa / n, bb / n, n, n);
    SquarePositive(n);
    CancelFactor(Times(ab / n, ab / n), Times(aa / n, bb / n), Times(n, n));
  }

  /** Pearson's coefficient always lies between -1 and 1; where it is set to 0
      because a series is flat, the covariance is 0 too. */
  lemma PearsonBounded(root: real -> real, xs: seq<real>, ys: seq<real>)
    requires IsRoot(root) && |xs| == |ys|
    ensures -1.0 <= Pearson(root, xs, ys) <= 1.0
    ensures |xs| >= 2 && (Std(root, xs) == 0.0 || Std(root, ys) == 0.0) ==> Covariance(xs, ys) == 0.0
  {
    hide Times, Dot, Centered, Covariance;
    if |xs| >= 2 {
      VarianceNotNegative(xs);
      VarianceNotNegative(ys);
      CovarianceBound(xs, ys);
      RootsBound(Covariance(xs, ys), Std(root, xs), Std(root, ys));
    }
  }

  lemma RootsBound(c: real, sx: real, sy: real)
    requires sx >= 0.0 && sy >= 0.0
    requires Times(c, c) <= Times(Times(sx, sx), Times(sy, sy))
    ensures sx != 0.0 && sy != 0.0 ==> Times(sx, sy) != 0.0 && -1.0 <= c / Times(sx, sy) <= 1.0
    ensures sx == 0.0 || sy == 0.0 ==> c == 0.0
  {
    var s := Times(sx, sy);
    Regroup(sx, sx, sy, sy);
    NotNegative(sx, sy);
    RootBound(c, s);
    if sx != 0.0 && sy != 0.0 {
      ProductNotZero(sx, sy);
      QuotientBound(c, s);
    }
  }

  lemma QuotientBound(c: real, s: real)
    requires s > 0.0 && -s <= c <= s
    ensures -1.0 <= c / s <= 1.0
  {}

  /** The coefficient is the covariance measured in standard deviations, and a standard
      deviation is the root of the mean square deviation. */
  lemma PearsonIs(root: real -> real, xs: seq<real>, ys: seq<real>)
    requires IsRoot(root) && |xs| == |ys| >= 2
    ensures Pearson(root, xs, ys) * (Std(root, xs) * Std(root, ys)) == Covariance(xs, ys)
    ensures Std(root, xs) >= 0.0 && Std(root, xs) * Std(root, xs) == Covariance(xs, xs)
  {
    hide Covariance, Times;
    var sx, sy := Std(root, xs), Std(root, ys);
    VarianceNotNegative(xs);
    PearsonBounded(root, xs, ys);
    PlainTimes(sx, sx);
    PlainTimes(sx, sy);
    if sx != 0.0 && sy != 0.0 {
      ProductNotZero(sx, sy);
      QuotientTimes(Covariance(xs, ys), Times(sx, sy));
      PlainTimes(Pearson(root, xs, ys), Times(sx, sy));
    }
  }

  lemma PearsonSymmetric(root: real -> real, xs: seq<real>, ys: seq<real>)
    requires |xs| == |ys|
    ensures Pearson(root, xs, ys) == Pearson(root, ys, xs)
  {
    if |xs| >= 2 {
      hide Times;
      CovarianceSymmetric(xs, ys);
      Commute(Std(root, xs), Std(root, ys));
    }
  }

  lemma CovarianceSymmetric(xs: seq<real>, ys: seq<real>)
    requires |xs| == |ys| > 0
    ensures Covariance(xs, ys) == Covariance(ys, xs)
  {
    DotSymmetric(Centered(xs), Centered(ys));
  }

  // ---------------------------------------------------------------- linear rescaling

  function Rescaled(xs: seq<real>, k: real, c: real): (ys: seq<real>)
    ensures |ys| == |xs|
  {
    seq(|xs|, i requires 0 <= i < |xs| => Times(k, xs[i]) + c)
  }

  lemma {:induction false} SumRescaled(xs: seq<real>, k: real, c: real)
    ensures Sum(Rescaled(xs, k, c)) == Times(k, Sum(xs)) + Times(c, |xs| as real)
    decreases xs
  {
    if xs != [] {
      var m := |xs| - 1;
      SumRescaled(xs[..m], k, c);
      RescaledPrefix(xs, k, c);
      Distribute(k, Sum(xs[..m]), xs[m]);
      Distribute(c, m as real, 1.0);
      assert Times(c, 1.0) == c;
    }
  }

  lemma RescaledPrefix(xs: seq<real>, k: real, c: real)
    requires xs != []
    ensures Rescaled(xs, k, c)[..|xs| - 1] == Rescaled(xs[..|xs| - 1], k, c)
  {
    hide Times;
    var m := |xs| - 1;
    var r, f := Rescaled(xs, k, c), Rescaled(xs[..m], k, c);
    forall i | 0 <= i < m ensures r[..m][i] == f[i] {
      assert xs[..m][i] == xs[i];
    }
  }

  lemma MeanRescaled(xs: seq<real>, k: real, c: real)
    requires xs != []
    ensures Mean(Rescaled(xs, k, c)) == Times(k, Mean(xs)) + c
  {
    hide Times;
    SumRescaled(xs, k, c);
    var n, m := |xs| as real, Mean(xs);
    QuotientTimes(Sum(xs), n);
    Associate(k, m, n);
    DistributeRight(Times(k, m), c, n);
    QuotientIs(Times(k, Sum(xs)) + Times(c, n), n, Times(k, m) + c);
  }

  lemma DistributeRight(x: real, y: real, k: real)
    ensures Times(x + y, k) == Times(x, k) + Times(y, k)
  {}

  lemma {:induction false} ScaledDot(a: seq<real>, c: seq<real>, b: seq<real>, k: real)
    requires |a| == |b| == |c|
    requires forall i :: 0 <= i < |a| ==> c[i] == Times(k, a[i])
    ensures Dot(c, b) == Times(k, Dot(a, b))
    decreases a
  {
    if a != [] {
      hide Times;
      var m := |a| - 1;
      ScaledDot(a[..m], c[..m], b[..m], k);
      Associate(k, a[m], b[m]);
      Distribute(k, Dot(a[..m], b[..m]), Times(a[m], b[m]));
    }
  }

  lemma CenteredRescaled(xs: seq<real>, k: real, c: real, i: nat)
    requires i < |xs|
    ensures Centered(Rescaled(xs, k, c))[i] == Times(k, Centered(xs)[i])
  {
    hide Times, Mean;
    MeanRescaled(xs, k, c);
    Distribute(k, xs[i] - Mean(xs), Mean(xs));
  }

  /** Rescaling one series scales the covariance and leaves no trace of the shift. */
  lemma CovarianceRescaled(xs: seq<real>, ys: seq<real>, k: real, c: real)
    requires |xs| == |ys| > 0
    ensures Covariance(Rescaled(xs, k, c), ys) == Times(k, Covariance(xs, ys))
  {
    hide Times, Centered, Dot, Rescaled;
    var a, r, b := Centered(xs), Centered(Rescaled(xs, k, c)), Centered(ys);
    forall i | 0 <= i < |xs| ensures r[i] == Times(k, a[i]) {
      CenteredRescaled(xs, k, c, i);
    }
    ScaledDot(a, r, b, k);
    var n := |xs| as real;
    QuotientTimes(Dot(a, b), n);
    Associate(k, Dot(a, b) / n, n);
    QuotientIs(Times(k, Dot(a, b)), n, Times(k, Dot(a, b) / n));
  }

  lemma VarianceRescaled(xs: seq<real>, k: real, c: real)
    requires xs != []
    ensures Variance(Rescaled(xs, k, c)) == Times(Times(k, k), Variance(xs))
  {
    hide Times, Covariance, Rescaled;
    var ys := Rescaled(xs, k, c);
    CovarianceRescaled(xs, ys, k, c);
    CovarianceSymmetric(xs, ys);
    CovarianceRescaled(xs, xs, k, c);
    Associate(k, k, Variance(xs));
  }

  function Sign(k: real): real { if k > 0.0 then 1.0 else if k < 0.0 then -1.0 else 0.0 }

  lemma StdRescaled(root: real -> real, xs: seq<real>, k: real, c: real)
    requires IsRoot(root)
    ensures Std(root, Rescaled(xs, k, c)) == Times(Abs(k), Std(root, xs))
  {
    if |xs| >= 2 {
      hide Times, Variance, Rescaled;
      VarianceRescaled(xs, k, c);
      VarianceNotNegative(xs);
      VarianceNotNegative(Rescaled(xs, k, c));
      var s, m := Std(root, xs), Abs(k);
      NotNegative(m, s);
      SameSquare(k);
      Regroup(m, m, s, s);
      SameRoot(Std(root, Rescaled(xs, k, c)), Times(m, s));
    }
  }

  lemma SameSquare(k: real)
    ensures Times(Abs(k), Abs(k)) == Times(k, k)
  {}

  /** The coefficient only sees the shape of a series: any shift and any positive
      factor leave it alone, a negative factor flips it, factor 0 gives 0. */
  lemma PearsonRescaled(root: real -> real, xs: seq<real>, ys: seq<real>, k: real, c: real)
    requires IsRoot(root) && |xs| == |ys|
    ensures Pearson(root, Rescaled(xs, k, c), ys) == Times(Sign(k), Pearson(root, xs, ys))
  {
    if |xs| >= 2 {
      hide Times, Covariance, Std, Rescaled;
      StdRescaled(root, xs, k, c);
      CovarianceRescaled(xs, ys, k, c);
      ScaledCoefficient(Covariance(xs, ys), Std(root, xs), Std(root, ys), k);
    }
  }

  lemma ScaledCoefficient(c: real, sx: real, sy: real, k: real)
    ensures Coefficient(Times(k, c), Times(Abs(k), sx), sy) == Times(Sign(k), Coefficient(c, sx, sy))
  {
    if k != 0.0 && sx != 0.0 && sy != 0.0 {
      hide Times;
      var m, s, q := Abs(k), Times(sx, sy), Coefficient(c, sx, sy);
      ProductNotZero(sx, sy);
      ProductNotZero(m, sx);
      ProductNotZero(Times(m, sx), sy);
      Associate(m, sx, sy);
      QuotientTimes(c, s);
      SignTimesAbs(k);
      Regroup(Sign(k), m, q, s);
      QuotientIs(Times(k, c), Times(m, s), Times(Sign(k), q));
    }
  }

  lemma SignTimesAbs(k: real)
    ensures Times(Sign(k), Abs(k)) == k
  {}

  /** A series and any rescaling of it correlate perfectly, unless it is flat. */
  lemma RescalingCorrelatesPerfectly(root: real -> real, xs: seq<real>, k: real, c: real)
    requires IsRoot(root)
    ensures Pearson(root, Rescaled(xs, k, c), xs) == if Std(root, xs) == 0.0 then 0.0 else Sign(k)
  {
    hide Rescaled, Covariance;
    PearsonRescaled(root, xs, xs, k, c);
    if Std(root, xs) != 0.0 {
      VarianceNotNegative(xs);
      var v := Times(Std(root, xs), Std(root, xs));
      ProductNotZero(Std(root, xs), Std(root, xs));
      assert v / v == 1.0;
    }
  }

  // ---------------------------------------------------------------- the analyzer

  const FEWEST := 10
  const DEFAULT_WINDOW := 100
  const DEFAULT_PAIRS := ["BTC", "ETH", "SOL"]

  function Last(xs: seq<real>, n: nat): (ys: seq<real>)
    requires n <= |xs|
    ensures |ys| == n
  {
    xs[|xs| - n..]
  }

  /** calculate_correlation, as far as the coefficient goes: the most recent
      common stretch of the two return series, if it is long enough. */
  function Correlate(root: real -> real, r1: seq<real>, r2: seq<real>): Option<real>
  {
    var n := if |r1| <= |r2| then |r1| else |r2|;
    if n < FEWEST then None
    else Some(Pearson(root, Last(r1, n), Last(r2, n)))
  }

  lemma CorrelateSymmetric(root: real -> real, r1: seq<real>, r2: seq<real>)
    ensures Correlate(root, r1, r2) == Correlate(root, r2, r1)
  {
    var n := if |r1| <= |r2| then |r1| else |r2|;
    PearsonSymmetric(root, Last(r1, n), Last(r2, n));
  }

  lemma CorrelateBounded(root: real -> real, r1: seq<real>, r2: seq<real>)
    requires IsRoot(root)
    ensures Correlate(root, r1, r2).Some? ==> -1.0 <= Correlate(root, r1, r2).value <= 1.0
  {
    var n := if |r1| <= |r2| then |r1| else |r2|;
    PearsonBounded(root, Last(r1, n), Last(r2, n));
  }

  /** A coefficient takes ten returns on either side, and sees the most recent ones only:
      what the longer series holds further back does not matter. */
  lemma CorrelatesRecent(root: real -> real, older: seq<real>, r1: seq<real>, r2: seq<real>)
    requires |r1| == |r2|
    ensures Correlate(root, older + r1, r2) == (if |r1| >= 10 then Some(Pearson(root, r1, r2)) else None)
    ensures Correlate(root, r1, older + r2) == (if |r1| >= 10 then Some(Pearson(root, r1, r2)) else None)
  {
    var n := |r1|;
    assert Last(older + r1, n) == r1 == Last(r1, n) && Last(older + r2, n) == r2 == Last(r2, n);
  }

  function ReturnsOf(m: map<string, seq<real>>, pair: string): seq<real>
  {
    if pair in m then m[pair] else []
  }

  /** What the matrix holds off the diagonal: 0 where data are missing. */
  function Entry(root: real -> real, m: map<string, seq<real>>, a: string, b: string): real
  {
    var c := Correlate(root, ReturnsOf(m, a), ReturnsOf(m, b));
    if c.Some? then c.value else 0.0
  }

  lemma EntryFacts(root: real -> real, m: map<string, seq<real>>, a: string, b: string)
    requires IsRoot(root)
    ensures Entry(root, m, a, b) == Entry(root, m, b, a)
    ensures -1.0 <= Entry(root, m, a, b) <= 1.0
    ensures Correlate(root, ReturnsOf(m, a), ReturnsOf(m, b)) == None ==> Entry(root, m, a, b) == 0.0
  {
    hide Correlate;
    CorrelateSymmetric(root, ReturnsOf(m, a), ReturnsOf(m, b));
    CorrelateBounded(root, ReturnsOf(m, a), ReturnsOf(m, b));
  }

  /** An entry is the coefficient of the returns that the shorter series has and as many of
      the longer one's latest, or zero with fewer than ten, or for a pair without any. */
  lemma EntryFromRecent(root: real -> real, m: map<string, seq<real>>, a: string, b: string, older: seq<real>, recent: seq<real>)
    requires IsRoot(root) && a in m && m[a] == older + recent
    requires |recent| == if b in m then |m[b]| else 0
    ensures Entry(root, m, a, b) == Entry(root, m, b, a)
         == if |recent| >= 10 then Pearson(root, recent, m[b]) else 0.0
  {
    hide Correlate, Pearson;
    CorrelatesRecent(root, older, recent, ReturnsOf(m, b));
    EntryFacts(root, m, a, b);
  }

  type Matrix = map<string, map<string, real>>

  /** `matrix.get(a, {}).get(b, 0.0)` */
  function Lookup(matrix: Matrix, a: string, b: string): real
  {
    if a in matrix && b in matrix[a] then matrix[a][b] else 0.0
  }

  /** Appending to a deque of bounded length. */
  function Append(d: seq<real>, x: real, cap: nat): seq<real>
  {
    if |d| < cap then d + [x] else (d + [x])[|d| + 1 - cap..]
  }

  function Growth(before: real, after: real): real
  {
    if before > 0.0 then (after - before) / before else 0.0
  }

  /** The two deques of a pair after one more price. */
  datatype Series = Series(prices: seq<real>, changes: seq<real>)

  function Extended(s: Series, price: real, window: nat): Series
  {
    Series(Append(s.prices, price, window + 1),
           if s.prices != [] && s.prices[|s.prices| - 1] > 0.0
           then Append(s.changes, Growth(s.prices[|s.prices| - 1], price), window)
           else s.changes)
  }

  function SeriesOf(prices: seq<real>, window: nat): Series
    decreases prices
  {
    if prices == [] then Series([], [])
    else Extended(SeriesOf(prices[..|prices| - 1], window), prices[|prices| - 1], window)
  }

  /** Change i takes price i, which is positive, to price i + 1. */
  ghost predicate Aligned(s: Series)
  {
    if s.prices == [] then s.changes == []
    else
      && |s.changes| == |s.prices| - 1
      && (forall i: nat | i < |s.changes| :: StepMatches(s, i))
  }

  ghost predicate StepMatches(s: Series, i: nat)
    requires i < |s.changes| && i + 1 < |s.prices|
  {
    s.prices[i] > 0.0 && s.prices[i + 1] == s.prices[i] * (1.0 + s.changes[i])
  }

  lemma GrowthTakesThere(before: real, after: real)
    requires before > 0.0
    ensures before * (1.0 + Growth(before, after)) == after
  {
    var g := (after - before) / before;
    assert g * before == after - before;
  }

  /** While both deques grow, a step keeps them aligned exactly when the price
      before it was positive; when they are full they drop entries together. */
  lemma AlignedStep(s: Series, price: real, window: nat)
    requires Aligned(s) && s.prices != [] && |s.prices| <= window + 1
    ensures |Extended(s, price, window).prices| <= window + 1
    ensures s.prices[|s.prices| - 1] > 0.0 ==> Aligned(Extended(s, price, window))
    ensures |s.prices| <= window && s.prices[|s.prices| - 1] <= 0.0 ==> !Aligned(Extended(s, price, window))
    ensures s.prices[|s.prices| - 1] <= 0.0 ==> Extended(s, price, window).changes == s.changes
  {
    var m := |s.prices| - 1;
    var t := Extended(s, price, window);
    if s.prices[m] > 0.0 {
      hide Growth;
      GrowthTakesThere(s.prices[m], price);
      var gone := |s.prices| + 1 - |t.prices|;
      assert t.prices != [] && |t.changes| == |t.prices| - 1;
      forall i: nat | i < |t.changes| ensures StepMatches(t, i) {
        assert t.prices[i] == s.prices[i + gone];
        if i + gone < m {
          assert StepMatches(s, i + gone);
          assert t.changes[i] == s.changes[i + gone];
          assert t.prices[i + 1] == s.prices[i + gone + 1];
        } else {
          assert t.prices[i + 1] == price;
        }
      }
    }
  }

  /** Any number of positive prices, evictions included, leaves the kept returns
      equal to the step-by-step changes of the kept prices. */
  lemma {:induction false} PositivePricesStayAligned(prices: seq<real>, window: nat)
    requires forall i :: 0 <= i < |prices| ==> prices[i] > 0.0
    ensures Aligned(SeriesOf(prices, window)) && |SeriesOf(prices, window).prices| <= window + 1
    ensures prices != [] ==>
      var kept := SeriesOf(prices, window).prices;
      kept != [] && kept[|kept| - 1] == prices[|prices| - 1]
    decreases prices
  {
    if prices != [] {
      var front := prices[..|prices| - 1];
      PositivePricesStayAligned(front, window);
      if front != [] {
        AlignedStep(SeriesOf(front, window), prices[|prices| - 1], window);
      }
    }
  }

  /** Whatever prices have been added, the kept ones are the latest, one more than the window. */
  lemma {:induction false} LatestPricesKept(prices: seq<real>, window: nat)
    ensures SeriesOf(prices, window).prices == if |prices| <= window + 1 then prices else prices[|prices| - (window + 1)..]
    decreases prices
  {
    if prices != [] {
      var front := prices[..|prices| - 1];
      LatestPricesKept(front, window);
      assert front + [prices[|prices| - 1]] == prices;
    }
  }

  class CorrelationAnalyzer {
    const pairs: seq<string>
    const windowSize: nat
    const root: real -> real
    var priceSeries: map<string, seq<real>>
    var returnSeries: map<string, seq<real>>

    ghost predicate Valid()
      reads this
    {
      IsRoot(root) && priceSeries.Keys == returnSeries.Keys
    }

    constructor (pairs: seq<string>, windowSize: nat, root: real -> real)
      requires IsRoot(root)
      ensures Valid() && this.root == root
      ensures this.pairs == if pairs == [] then ["BTC", "ETH", "SOL"] else pairs
      ensures this.windowSize == if windowSize == 0 then 100 else windowSize
      ensures forall pair :: Has(pair) <==> pair in this.pairs
      ensures forall pair :: Of(pair) == Series([], [])
    {
      var tracked := if pairs == [] then DEFAULT_PAIRS else pairs;
      this.pairs := tracked;
      this.windowSize := if windowSize == 0 then DEFAULT_WINDOW else windowSize;
      this.root := root;
      priceSeries := map pair | pair in tracked :: [];
      returnSeries := map pair | pair in tracked :: [];
    }

    ghost predicate Has(pair: string)
      reads this
    {
      pair in priceSeries
    }

    ghost function Of(pair: string): Series
      requires Valid()
      reads this
    {
      Series(ReturnsOf(priceSeries, pair), ReturnsOf(returnSeries, pair))
    }

    method AddPrice(pair: string, price: real)
      requires Valid()
      modifies this
      ensures Valid() && Of(pair) == Extended(old(Of(pair)), price, windowSize)
      ensures forall other :: other != pair ==> Of(other) == old(Of(other))
    {
      if pair !in priceSeries {
        priceSeries := priceSeries[pair := []];
        returnSeries := returnSeries[pair := []];
      }
      var previous := priceSeries[pair];
      if previous != [] {
        var last := previous[|previous| - 1];
        if last > 0.0 {
          var change := (price - last) / last;
          returnSeries := returnSeries[pair := Append(returnSeries[pair], change, windowSize)];
        }
      }
      priceSeries := priceSeries[pair := Append(previous, price, windowSize + 1)];
    }

    method CalculateCorrelation(pair1: string, pair2: string) returns (result: Option<real>)
      ensures result == Correlate(root, ReturnsOf(returnSeries, pair1), ReturnsOf(returnSeries, pair2))
    {
      var returns1 := ReturnsOf(returnSeries, pair1);
      var returns2 := ReturnsOf(returnSeries, pair2);
      var common := if |returns1| <= |returns2| then |returns1| else |returns2|;
      if common < FEWEST {
        return None;
      }
      result := Some(Pearson(root, returns1[|returns1| - common..], returns2[|returns2| - common..]));
    }

    /** Row `a` once rows ..i have been filled. A pair listed twice may still have
        a provisional diagonal, until its last row is filled. */
    ghost predicate RowDone(matrix: Matrix, i: nat, a: string)
      requires i <= |pairs|
      reads this
    {
      && a in matrix
      && (forall b :: b in matrix[a] <==> b in pairs)
      && (forall b :: b in pairs && b != a ==> matrix[a][b] == Entry(root, returnSeries, a, b))
      && (a in pairs && a !in pairs[i..] ==> matrix[a][a] == 1.0)
    }

    /** Row i with cells ..j filled. */
    ghost predicate RowPartial(cells: map<string, real>, i: nat, j: nat)
      requires i < |pairs| && j <= |pairs|
      reads this
    {
      && (forall b :: b in cells <==> b in pairs[..j])
      && (forall b :: b in pairs[..j] && b != pairs[i] ==> cells[b] == Entry(root, returnSeries, pairs[i], b))
      && (i < j && pairs[i] !in pairs[i + 1..j] ==> pairs[i] in cells && cells[pairs[i]] == 1.0)
    }

    method Cell(matrix: Matrix, i: nat, j: nat) returns (cell: real)
      requires Valid() && i < |pairs| && j < |pairs|
      requires forall a :: a in pairs[..i] && a != pairs[i] ==> RowDone(matrix, i, a)
      ensures i == j ==> cell == 1.0
      ensures pairs[j] != pairs[i] ==> cell == Entry(root, returnSeries, pairs[i], pairs[j])
    {
      if i == j {
        cell := 1.0;
      } else if j < i {
        assert pairs[j] in pairs[..i];
        EntryFacts(root, returnSeries, pairs[i], pairs[j]);
        cell := Lookup(matrix, pairs[j], pairs[i]);
      } else {
        var result := CalculateCorrelation(pairs[i], pairs[j]);
        cell := if result.Some? then result.value else 0.0;
      }
    }

    /** Whatever the list of pairs, repeats included: a unit diagonal, symmetric,
        and every entry a coefficient between -1 and 1. */
    method GetCorrelationMatrix() returns (matrix: Matrix)
      requires Valid()
      ensures forall a :: a in matrix <==> a in pairs
      ensures forall a, b :: a in pairs ==> (b in matrix[a] <==> b in pairs)
      ensures forall a :: a in pairs ==> matrix[a][a] == 1.0
      ensures forall a, b :: a in pairs && b in pairs && a != b ==>
                matrix[a][b] == Entry(root, returnSeries, a, b)
      ensures forall a, b :: a in pairs && b in pairs ==> matrix[a][b] == matrix[b][a]
      ensures forall a, b :: a in pairs && b in pairs ==> -1.0 <= matrix[a][b] <= 1.0
    {
      hide Entry;
      matrix := map[];
      for i := 0 to |pairs|
        invariant forall a :: a in matrix <==> a in pairs[..i]
        invariant forall a :: a in matrix ==> RowDone(matrix, i, a)
      {
        matrix := FillRow(matrix, i);
      }
      assert pairs[..|pairs|] == pairs;
      forall a, b | a in pairs && b in pairs
        ensures matrix[a][b] == matrix[b][a] && -1.0 <= matrix[a][b] <= 1.0
      {
        EntryFacts(root, returnSeries, a, b);
      }
    }

    method FillRow(matrix: Matrix, i: nat) returns (filled: Matrix)
      requires Valid() && i < |pairs|
      requires forall a :: a in matrix <==> a in pairs[..i]
      requires forall a :: a in matrix ==> RowDone(matrix, i, a)
      ensures forall a :: a in filled <==> a in pairs[..i + 1]
      ensures forall a :: a in filled ==> RowDone(filled, i + 1, a)
    {
      hide Entry, RowDone, RowPartial;
      var row := pairs[i];
      filled := matrix[row := map[]];
      RowBegins(i);
      for j := 0 to |pairs|
        invariant filled.Keys == matrix.Keys + {row}
        invariant forall a :: a in filled && a != row ==> filled[a] == matrix[a]
        invariant RowPartial(filled[row], i, j)
      {
        forall a | a in pairs[..i] && a != row ensures RowDone(filled, i, a) {
          RowUntouched(matrix, filled, i, a);
        }
        var cell := Cell(filled, i, j);
        CellAdded(filled[row], i, j, cell);
        filled := filled[row := filled[row][pairs[j] := cell]];
      }
      assert pairs[..i + 1] == pairs[..i] + [row];
      forall a | a in filled ensures RowDone(filled, i + 1, a) {
        if a == row {
          RowComplete(filled, i);
        } else {
          RowUntouched(matrix, filled, i, a);
          RowStays(filled, i, a);
        }
      }
    }

    lemma RowBegins(i: nat)
      requires i < |pairs|
      ensures RowPartial(map[], i, 0)
    {}

    lemma RowUntouched(matrix: Matrix, other: Matrix, i: nat, a: string)
      requires i <= |pairs| && RowDone(matrix, i, a) && a in other && other[a] == matrix[a]
      ensures RowDone(other, i, a)
    {}

    lemma CellAdded(cells: map<string, real>, i: nat, j: nat, cell: real)
      requires i < |pairs| && j < |pairs| && RowPartial(cells, i, j)
      requires i == j ==> cell == 1.0
      requires pairs[j] != pairs[i] ==> cell == Entry(root, returnSeries, pairs[i], pairs[j])
      ensures RowPartial(cells[pairs[j] := cell], i, j + 1)
    {
      hide Entry;
      assert pairs[..j + 1] == pairs[..j] + [pairs[j]];
      if i < j {
        assert pairs[i + 1..j + 1] == pairs[i + 1..j] + [pairs[j]];
      }
    }

    lemma RowComplete(matrix: Matrix, i: nat)
      requires i < |pairs| && pairs[i] in matrix && RowPartial(matrix[pairs[i]], i, |pairs|)
      ensures RowDone(matrix, i + 1, pairs[i])
    {
      hide Entry;
      assert pairs[i + 1..|pairs|] == pairs[i + 1..];
      assert pairs[..|pairs|] == pairs;
    }

    lemma RowStays(matrix: Matrix, i: nat, a: string)
      requires i < |pairs| && RowDone(matrix, i, a) && a != pairs[i]
      ensures RowDone(matrix, i + 1, a)
    {
      hide Entry;
      assert pairs[i..] == [pairs[i]] + pairs[i + 1..];
    }
  }
}
