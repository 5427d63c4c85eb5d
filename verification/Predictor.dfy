/** Trend prediction: ordinary least squares over a bounded window of samples, in exact reals. */
module Predictor {
  import opened Actions

  datatype Sample = Sample(timestamp: real, value: real)

  datatype Fit = Fit(slope: real, intercept: real, r2: real)

  datatype TrendAlert = TrendAlert(current: real, projected: real, breachIn: real, slope: real, confidence: real)

  datatype Evaluation = NoAlert | Alert(alert: TrendAlert) | RaisesOnEmpty

  function Sum(s: seq<real>): real {
    if s == [] then 0.0 else Sum(s[..|s| - 1]) + s[|s| - 1]
  }

  function Times(x: real, y: real): real {
    x * y
  }

  /** The products of corresponding elements, summed. */
  function Dot(a: seq<real>, b: seq<real>): real
    requires |a| == |b|
  {
    if a == [] then 0.0 else Dot(a[..|a| - 1], b[..|b| - 1]) + Times(a[|a| - 1], b[|b| - 1])
  }

  function Minus(s: seq<real>, c: real): (r: seq<real>)
    ensures |r| == |s|
  {
    seq(|s|, i requires 0 <= i < |s| => s[i] - c)
  }

  function Scaled(s: seq<real>, q: real): (r: seq<real>)
    ensures |r| == |s|
  {
    seq(|s|, i requires 0 <= i < |s| => q * s[i])
  }

  /** What a line leaves of each sample. */
  function Residuals(xs: seq<real>, ys: seq<real>, slope: real, intercept: real): (r: seq<real>)
    requires |xs| == |ys|
    ensures |r| == |ys|
  {
    seq(|xs|, i requires 0 <= i < |xs| => ys[i] - (intercept + slope * xs[i]))
  }

  function Squares(s: seq<real>): real {
    Dot(s, s)
  }

  function Max(a: real, b: real): real {
    if a >= b then a else b
  }

  function Mean(s: seq<real>): real
    requires s != []
  {
    Sum(s) / |s| as real
  }

  function Centred(s: seq<real>): (r: seq<real>)
    requires s != []
    ensures |r| == |s|
  {
    Minus(s, Mean(s))
  }

  /** The least-squares slope; only used when the time stamps are not all the same. */
  function Slope(xs: seq<real>, ys: seq<real>): real
    requires |xs| == |ys| > 0
  {
    var ssXX := Dot(Centred(xs), Centred(xs));
    if ssXX == 0.0 then 0.0 else Dot(Centred(xs), Centred(ys)) / ssXX
  }

  function Intercept(xs: seq<real>, ys: seq<real>): real
    requires |xs| == |ys| > 0
  {
    Mean(ys) - Slope(xs, ys) * Mean(xs)
  }

  function RSquared(ssRes: real, ssTot: real): real {
    if ssTot > 0.0 then 1.0 - ssRes / ssTot else 0.0
  }

  /** The fit as the code computes it, including the sign with which it undoes the shift by `xs[0]`. */
  function Ols(xs: seq<real>, ys: seq<real>): Fit
    requires |xs| == |ys| > 0
  {
    var shifted := Minus(xs, xs[0]);
    if Squares(Centred(shifted)) == 0.0 then Fit(0.0, Mean(ys), 0.0)
    else
      var slope, intercept := Slope(shifted, ys), Intercept(shifted, ys);
      var r2 := RSquared(Squares(Residuals(shifted, ys, slope, intercept)), Squares(Centred(ys)));
      Fit(slope, intercept + slope * xs[0], Max(0.0, r2))
  }

  // --- Sums ------------------------------------------------------------------------------------

  lemma {:induction false} SumMinus(s: seq<real>, c: real)
    ensures Sum(Minus(s, c)) == Sum(s) - |s| as real * c
  {
    if s != [] {
      assert Minus(s, c)[..|s| - 1] == Minus(s[..|s| - 1], c);
      SumMinus(s[..|s| - 1], c);
      var n := |s| as real;
      assert (n - 1.0) * c == n * c - c;
    }
  }

  lemma {:induction false} SquaresNonNegative(s: seq<real>)
    ensures Squares(s) >= 0.0
  {
    if s != [] {
      SquaresNonNegative(s[..|s| - 1]);
      SquareSign(s[|s| - 1]);
    }
  }

  lemma {:induction false} SquaresPositive(s: seq<real>, i: nat)
    requires i < |s| && s[i] != 0.0
    ensures Squares(s) > 0.0
  {
    var front, last := s[..|s| - 1], s[|s| - 1];
    SquaresNonNegative(front);
    SquareSign(last);
    if i < |front| {
      SquaresPositive(front, i);
    }
  }

  lemma {:induction false} SameSign(x: real, y: real)
    requires (x > 0.0 && y > 0.0) || (x < 0.0 && y < 0.0)
    ensures Times(x, y) > 0.0
  {}

  lemma {:induction false} SquareSign(x: real)
    ensures Times(x, x) >= 0.0
    ensures x == 0.0 || Times(x, x) > 0.0
  {
    if x != 0.0 {
      SameSign(x, x);
    }
  }

  lemma {:induction false} DivideBack(x: real, n: real)
    requires n != 0.0
    ensures x / n * n == x && n * (x / n) == x
  {}

  lemma {:induction false} Distribute(q: real, a: real, b: real)
    ensures q * (a + b) == q * a + q * b
  {}

  lemma {:induction false} ScaledDot(a: seq<real>, x: seq<real>, line: seq<real>, q: real)
    requires |a| == |x| == |line|
    requires forall i :: 0 <= i < |x| ==> line[i] == q * x[i]
    ensures Dot(a, line) == q * Dot(a, x)
  {
    if a != [] {
      var n := |a| - 1;
      ScaledDot(a[..n], x[..n], line[..n], q);
      assert Times(a[n], q * x[n]) == q * Times(a[n], x[n]);
      Distribute(q, Dot(a[..n], x[..n]), Times(a[n], x[n]));
    }
  }

  lemma {:induction false} ConstantDot(a: seq<real>, line: seq<real>, p: real)
    requires |a| == |line|
    requires forall i :: 0 <= i < |line| ==> line[i] == p
    ensures Dot(a, line) == p * Sum(a)
  {
    if a != [] {
      var n := |a| - 1;
      ConstantDot(a[..n], line[..n], p);
      Distribute(p, Sum(a[..n]), a[n]);
    }
  }

  lemma {:induction false} DotOfSum(d: seq<real>, a: seq<real>, b: seq<real>, c: seq<real>)
    requires |a| == |b| == |c| == |d|
    requires forall i :: 0 <= i < |a| ==> c[i] == a[i] + b[i]
    ensures Dot(d, c) == Dot(d, a) + Dot(d, b)
  {
    if a != [] {
      var n := |a| - 1;
      DotOfSum(d[..n], a[..n], b[..n], c[..n]);
      assert Times(d[n], a[n] + b[n]) == Times(d[n], a[n]) + Times(d[n], b[n]);
    }
  }

  lemma {:induction false} TimesZero(q: real, zero: real)
    requires zero == 0.0
    ensures q * zero == 0.0
  {}

  lemma {:induction false} ConstantIsOrthogonal(a: seq<real>, line: seq<real>, p: real)
    requires |a| == |line| && Sum(a) == 0.0
    requires forall i :: 0 <= i < |line| ==> line[i] == p
    ensures Dot(a, line) == 0.0
  {
    ConstantDot(a, line, p);
    TimesZero(p, Sum(a));
  }

  lemma {:induction false} ScaledDotOf(a: seq<real>, x: seq<real>, q: real)
    requires |a| == |x|
    ensures Dot(a, Scaled(x, q)) == q * Dot(a, x)
  {
    ScaledDot(a, x, Scaled(x, q), q);
  }

  lemma {:induction false} ScaledIsOrthogonal(a: seq<real>, x: seq<real>, q: real)
    requires |a| == |x| && Dot(a, x) == 0.0
    ensures Dot(a, Scaled(x, q)) == 0.0
  {
    ScaledDotOf(a, x, q);
    TimesZero(q, Dot(a, x));
  }

  /** The square of a sum, term by term. */
  lemma {:induction false} SquaresOfSum(a: seq<real>, b: seq<real>, c: seq<real>)
    requires |a| == |b| == |c|
    requires forall i :: 0 <= i < |a| ==> c[i] == a[i] + b[i]
    ensures Squares(c) == Squares(a) + 2.0 * Dot(a, b) + Squares(b)
  {
    if a != [] {
      var n := |a| - 1;
      SquaresOfSum(a[..n], b[..n], c[..n]);
      BinomialSquare(a[n], b[n]);
    }
  }

  lemma {:induction false} BinomialSquare(x: real, y: real)
    ensures Times(x + y, x + y) == Times(x, x) + 2.0 * Times(x, y) + Times(y, y)
  {}

  lemma {:induction false} DotCommutes(a: seq<real>, b: seq<real>)
    requires |a| == |b|
    ensures Dot(a, b) == Dot(b, a)
  {
    if a != [] {
      DotCommutes(a[..|a| - 1], b[..|b| - 1]);
    }
  }

  // --- Least squares ---------------------------------------------------------------------------

  /** The normal equations: the residuals sum to zero and are orthogonal to the time stamps. */
  ghost predicate Normal(xs: seq<real>, ys: seq<real>, slope: real, intercept: real)
    requires |xs| == |ys|
  {
    var r := Residuals(xs, ys, slope, intercept);
    Sum(r) == 0.0 && Dot(r, xs) == 0.0
  }

  /** `m` is the mean of `s`, without the division. */
  ghost predicate IsMean(m: real, s: seq<real>) {
    |s| as real * m == Sum(s)
  }

  lemma {:induction false} MeanIsMean(s: seq<real>)
    requires s != []
    ensures IsMean(Mean(s), s)
  {
    DivideBack(Sum(s), |s| as real);
  }

  lemma {:induction false} CentredSumIsZero(s: seq<real>, m: real)
    requires IsMean(m, s)
    ensures Sum(Minus(s, m)) == 0.0
  {
    SumMinus(s, m);
  }

  /** The residuals of a line through the means, in centred coordinates. */
  lemma {:induction false} CentredResiduals(xs: seq<real>, ys: seq<real>, mx: real, my: real, slope: real,
                                            intercept: real)
    requires |xs| == |ys| && intercept == my - slope * mx
    ensures
      var r := Residuals(xs, ys, slope, intercept);
      var dx, dy := Minus(xs, mx), Minus(ys, my);
      forall i :: 0 <= i < |xs| ==> r[i] == dy[i] - Scaled(dx, slope)[i]
  {
    var r := Residuals(xs, ys, slope, intercept);
    var dx, dy := Minus(xs, mx), Minus(ys, my);
    forall i | 0 <= i < |xs|
      ensures r[i] == dy[i] - slope * dx[i]
    {
      assert slope * (xs[i] - mx) == slope * xs[i] - slope * mx;
    }
  }

  lemma {:induction false} SumOfDifference(a: seq<real>, b: seq<real>, c: seq<real>)
    requires |a| == |b| == |c|
    requires forall i :: 0 <= i < |a| ==> c[i] == a[i] - b[i]
    ensures Sum(c) == Sum(a) - Sum(b)
  {
    if a != [] {
      var n := |a| - 1;
      SumOfDifference(a[..n], b[..n], c[..n]);
    }
  }

  lemma {:induction false} SumScaled(x: seq<real>, line: seq<real>, q: real)
    requires |x| == |line|
    requires forall i :: 0 <= i < |x| ==> line[i] == q * x[i]
    ensures Sum(line) == q * Sum(x)
  {
    if x != [] {
      var n := |x| - 1;
      SumScaled(x[..n], line[..n], q);
      Distribute(q, Sum(x[..n]), x[n]);
    }
  }

  lemma {:induction false} DotOfDifference(a: seq<real>, b: seq<real>, c: seq<real>, d: seq<real>)
    requires |a| == |b| == |c| == |d|
    requires forall i :: 0 <= i < |a| ==> c[i] == a[i] - b[i]
    ensures Dot(c, d) == Dot(a, d) - Dot(b, d)
  {
    if a != [] {
      var n := |a| - 1;
      DotOfDifference(a[..n], b[..n], c[..n], d[..n]);
      assert Times(a[n] - b[n], d[n]) == Times(a[n], d[n]) - Times(b[n], d[n]);
    }
  }

  /** Orthogonal to the time stamps and to the centred time stamps is the same for residuals that sum to zero. */
  lemma {:induction false} DotCentred(r: seq<real>, xs: seq<real>, mx: real)
    requires |r| == |xs| && Sum(r) == 0.0
    ensures Dot(r, Minus(xs, mx)) == Dot(r, xs)
  {
    var constant := seq(|xs|, i => -mx);
    DotOfSum(r, constant, xs, Minus(xs, mx));
    ConstantIsOrthogonal(r, constant, -mx);
  }

  lemma {:induction false} ResidualsAreOrthogonal(dx: seq<real>, dy: seq<real>, line: seq<real>, r: seq<real>)
    requires |dx| == |dy| == |line| == |r|
    requires forall i :: 0 <= i < |r| ==> r[i] == dy[i] - line[i]
    requires Dot(dx, dy) == Dot(dx, line)
    ensures Dot(r, dx) == 0.0
  {
    DotOfDifference(dy, line, r, dx);
    DotCommutes(dx, dy);
    DotCommutes(dx, line);
  }

  lemma {:induction false} ZeroSumScaled(x: seq<real>, line: seq<real>, q: real)
    requires |x| == |line| && Sum(x) == 0.0
    requires forall i :: 0 <= i < |x| ==> line[i] == q * x[i]
    ensures Sum(line) == 0.0
  {
    SumScaled(x, line, q);
    TimesZero(q, Sum(x));
  }

  lemma {:induction false} FitIsNormal(xs: seq<real>, ys: seq<real>, mx: real, my: real, slope: real, intercept: real)
    requires |xs| == |ys| && IsMean(mx, xs) && IsMean(my, ys) && intercept == my - slope * mx
    requires Dot(Minus(xs, mx), Minus(ys, my)) == Dot(Minus(xs, mx), Scaled(Minus(xs, mx), slope))
    ensures Normal(xs, ys, slope, intercept)
  {
    var r, dx, dy := Residuals(xs, ys, slope, intercept), Minus(xs, mx), Minus(ys, my);
    CentredResiduals(xs, ys, mx, my, slope, intercept);
    CentredSumIsZero(xs, mx);
    CentredSumIsZero(ys, my);
    CentredFit(dx, dy, Scaled(dx, slope), r, slope);
    DotCentred(r, xs, mx);
  }

  /** The same in centred coordinates. */
  lemma {:induction false} CentredFit(dx: seq<real>, dy: seq<real>, line: seq<real>, r: seq<real>, slope: real)
    requires |dx| == |dy| == |line| == |r| && Sum(dx) == 0.0 && Sum(dy) == 0.0
    requires forall i :: 0 <= i < |dx| ==> line[i] == slope * dx[i]
    requires forall i :: 0 <= i < |dx| ==> r[i] == dy[i] - line[i]
    requires Dot(dx, dy) == Dot(dx, line)
    ensures Sum(r) == 0.0 && Dot(r, dx) == 0.0
  {
    ZeroSumScaled(dx, line, slope);
    SumOfDifference(dy, line, r);
    ResidualsAreOrthogonal(dx, dy, line, r);
  }

  /** Residuals that obey the normal equations are orthogonal to every line. */
  lemma {:induction false} NormalIsOrthogonal(xs: seq<real>, r: seq<real>, p: real, q: real, line: seq<real>)
    requires |xs| == |r| == |line| && Sum(r) == 0.0 && Dot(r, xs) == 0.0
    requires forall i :: 0 <= i < |xs| ==> line[i] == p + q * xs[i]
    ensures Dot(r, line) == 0.0
  {
    var constant := seq(|xs|, i => p);
    DotOfSum(r, constant, Scaled(xs, q), line);
    ConstantIsOrthogonal(r, constant, p);
    ScaledIsOrthogonal(r, xs, q);
  }

  lemma {:induction false} LineGap(xs: seq<real>, ys: seq<real>, slope: real, intercept: real, m: real, b: real,
                                   gap: seq<real>)
    requires |xs| == |ys| == |gap|
    requires forall i :: 0 <= i < |xs| ==> gap[i] == intercept - b + (slope - m) * xs[i]
    ensures forall i :: 0 <= i < |xs| ==>
      Residuals(xs, ys, m, b)[i] == Residuals(xs, ys, slope, intercept)[i] + gap[i]
  {
    forall i | 0 <= i < |xs|
      ensures Residuals(xs, ys, m, b)[i] == Residuals(xs, ys, slope, intercept)[i] + gap[i]
    {
      assert (slope - m) * xs[i] == slope * xs[i] - m * xs[i];
    }
  }

  /** Every other line is worse by the sum of squares of its distance to the normal one. */
  lemma {:induction false} NormalIsOptimal(xs: seq<real>, ys: seq<real>, slope: real, intercept: real, m: real, b: real)
    requires |xs| == |ys| && Normal(xs, ys, slope, intercept)
    ensures Squares(Residuals(xs, ys, slope, intercept)) <= Squares(Residuals(xs, ys, m, b))
  {
    var p, q, best := intercept - b, slope - m, Residuals(xs, ys, slope, intercept);
    var gap := seq(|xs|, i requires 0 <= i < |xs| => p + q * xs[i]);
    LineGap(xs, ys, slope, intercept, m, b, gap);
    NormalIsOrthogonal(xs, best, p, q, gap);
    OrthogonalAddsSquares(best, gap, Residuals(xs, ys, m, b));
  }

  lemma {:induction false} OrthogonalAddsSquares(a: seq<real>, b: seq<real>, c: seq<real>)
    requires |a| == |b| == |c| && Dot(a, b) == 0.0
    requires forall i :: 0 <= i < |a| ==> c[i] == a[i] + b[i]
    ensures Squares(a) <= Squares(c)
  {
    SquaresOfSum(a, b, c);
    SquaresNonNegative(b);
  }

  lemma {:induction false} PartsAreOrthogonal(xs: seq<real>, ys: seq<real>, mx: real, slope: real, intercept: real)
    requires |xs| == |ys| && Normal(xs, ys, slope, intercept)
    ensures Dot(Residuals(xs, ys, slope, intercept), Scaled(Minus(xs, mx), slope)) == 0.0
  {
    DotCentred(Residuals(xs, ys, slope, intercept), xs, mx);
    ScaledIsOrthogonal(Residuals(xs, ys, slope, intercept), Minus(xs, mx), slope);
  }

  lemma {:induction false} PartsSum(xs: seq<real>, ys: seq<real>, mx: real, my: real, slope: real, intercept: real)
    requires |xs| == |ys| && intercept == my - slope * mx
    ensures
      var r, line := Residuals(xs, ys, slope, intercept), Scaled(Minus(xs, mx), slope);
      Squares(Minus(ys, my)) == Squares(r) + 2.0 * Dot(r, line) + Squares(line)
  {
    CentredResiduals(xs, ys, mx, my, slope, intercept);
    SquaresOfSum(Residuals(xs, ys, slope, intercept), Scaled(Minus(xs, mx), slope), Minus(ys, my));
  }

  /** The total sum of squares is the residual one plus that of the explained part. */
  lemma {:induction false} Decomposition(xs: seq<real>, ys: seq<real>, mx: real, my: real, slope: real, intercept: real)
    requires |xs| == |ys| && intercept == my - slope * mx && Normal(xs, ys, slope, intercept)
    ensures Squares(Minus(ys, my))
         == Squares(Residuals(xs, ys, slope, intercept)) + Squares(Scaled(Minus(xs, mx), slope))
  {
    PartsSum(xs, ys, mx, my, slope, intercept);
    PartsAreOrthogonal(xs, ys, mx, slope, intercept);
  }

  lemma {:induction false} ScaledSquares(x: seq<real>, line: seq<real>, q: real)
    requires |x| == |line|
    requires forall i :: 0 <= i < |x| ==> line[i] == q * x[i]
    ensures Squares(line) == q * q * Squares(x)
  {
    ScaledDot(line, x, line, q);
    DotCommutes(line, x);
    ScaledDot(x, x, line, q);
    assert q * (q * Squares(x)) == q * q * Squares(x);
  }

  ghost predicate Varies(xs: seq<real>) {
    exists i, j :: 0 <= i < |xs| && 0 <= j < |xs| && xs[i] != xs[j]
  }

  /** The centred squares vanish exactly when all time stamps are the same. */
  lemma {:induction false} SpreadIffVaries(xs: seq<real>)
    requires xs != []
    ensures Squares(Minus(Minus(xs, xs[0]), Mean(Minus(xs, xs[0])))) == 0.0 <==> !Varies(xs)
  {
    var shifted := Minus(xs, xs[0]);
    var dx := Minus(shifted, Mean(shifted));
    if !Varies(xs) {
      forall i | 0 <= i < |xs| ensures shifted[i] == 0.0 {
        assert xs[i] == xs[0];
      }
      ZerosSum(shifted);
      ZerosSum(dx);
    } else {
      var i, j :| 0 <= i < |xs| && 0 <= j < |xs| && xs[i] != xs[j];
      assert dx[i] - dx[j] == xs[i] - xs[j];
      SquaresPositive(dx, if dx[i] != 0.0 then i else j);
    }
  }

  lemma {:induction false} ZerosSum(s: seq<real>)
    requires forall i :: 0 <= i < |s| ==> s[i] == 0.0
    ensures Sum(s) == 0.0 && Squares(s) == 0.0
  {
    if s != [] {
      ZerosSum(s[..|s| - 1]);
    }
  }

  // --- What `_ols` returns ---------------------------------------------------------------------

  /** The intercept before the shift is undone: the one in the coordinates `x - xs[0]`. */
  ghost function ShiftedIntercept(xs: seq<real>, ys: seq<real>): real
    requires |xs| == |ys| > 0
  {
    var fit := Ols(xs, ys);
    fit.intercept - fit.slope * xs[0]
  }

  lemma {:induction false} SlopeFits(dx: seq<real>, dy: seq<real>, slope: real, xx: real, xy: real)
    requires |dx| == |dy| && xx == Dot(dx, dx) && xy == Dot(dx, dy) && slope * xx == xy
    ensures Dot(dx, Scaled(dx, slope)) == xy
  {
    ScaledDotOf(dx, dx, slope);
  }

  lemma {:induction false} SlopeCrossTerms(xs: seq<real>, ys: seq<real>)
    requires |xs| == |ys| > 0 && Squares(Centred(xs)) != 0.0
    ensures Dot(Centred(xs), Scaled(Centred(xs), Slope(xs, ys))) == Dot(Centred(xs), Centred(ys))
  {
    var xx, xy := Dot(Centred(xs), Centred(xs)), Dot(Centred(xs), Centred(ys));
    DivideBack(xy, xx);
    SlopeFits(Centred(xs), Centred(ys), Slope(xs, ys), xx, xy);
  }

  lemma {:induction false} SlopeIsNormal(xs: seq<real>, ys: seq<real>)
    requires |xs| == |ys| > 0 && Squares(Centred(xs)) != 0.0
    ensures Normal(xs, ys, Slope(xs, ys), Intercept(xs, ys))
  {
    var slope, mx, my := Slope(xs, ys), Mean(xs), Mean(ys);
    SlopeCrossTerms(xs, ys);
    MeanIsMean(xs);
    MeanIsMean(ys);
    assert Dot(Minus(xs, mx), Minus(ys, my)) == Dot(Minus(xs, mx), Scaled(Minus(xs, mx), slope));
    FitIsNormal(xs, ys, mx, my, slope, Intercept(xs, ys));
  }

  lemma {:induction false} OlsUnfolds(xs: seq<real>, ys: seq<real>)
    requires |xs| == |ys| > 0 && Squares(Centred(Minus(xs, xs[0]))) != 0.0
    ensures Ols(xs, ys).slope == Slope(Minus(xs, xs[0]), ys)
    ensures ShiftedIntercept(xs, ys) == Intercept(Minus(xs, xs[0]), ys)
  {
    var slope, intercept := Slope(Minus(xs, xs[0]), ys), Intercept(Minus(xs, xs[0]), ys);
    AddAndTakeBack(intercept, slope * xs[0]);
  }

  lemma {:induction false} AddAndTakeBack(x: real, y: real)
    ensures x + y - y == x
  {}

  lemma {:induction false} OlsSlope(xs: seq<real>, ys: seq<real>)
    requires |xs| == |ys| > 0 && Varies(xs)
    ensures
      var shifted := Minus(xs, xs[0]);
      && Squares(Centred(shifted)) != 0.0
      && Ols(xs, ys).slope == Slope(shifted, ys)
      && ShiftedIntercept(xs, ys) == Intercept(shifted, ys)
  {
    SpreadIffVaries(xs);
    OlsUnfolds(xs, ys);
  }

  /** The fitted line minimises the sum of squared residuals over all lines. */
  lemma {:induction false} OlsIsOptimal(xs: seq<real>, ys: seq<real>, m: real, b: real)
    requires |xs| == |ys| > 0 && Varies(xs)
    ensures Squares(Residuals(Minus(xs, xs[0]), ys, Ols(xs, ys).slope, ShiftedIntercept(xs, ys)))
         <= Squares(Residuals(Minus(xs, xs[0]), ys, m, b))
  {
    var shifted := Minus(xs, xs[0]);
    OlsSlope(xs, ys);
    SlopeIsNormal(shifted, ys);
    NormalIsOptimal(shifted, ys, Slope(shifted, ys), Intercept(shifted, ys), m, b);
  }

  lemma {:induction false} ConstantSquares(s: seq<real>, g: real)
    requires forall i :: 0 <= i < |s| ==> s[i] == -g
    ensures Squares(s) == |s| as real * Times(g, g)
  {
    if s != [] {
      var n := |s| - 1;
      ConstantSquares(s[..n], g);
      assert Times(-g, -g) == Times(g, g);
      assert |s| as real == n as real + 1.0;
      assert (n as real + 1.0) * Times(g, g) == n as real * Times(g, g) + Times(g, g);
    }
  }

  /** Moving residuals that sum to zero by `g` costs `g` squared per sample. */
  lemma {:induction false} OffsetAddsSquares(r: seq<real>, other: seq<real>, g: real, n: nat)
    requires |r| == |other| == n && Sum(r) == 0.0
    requires forall i :: 0 <= i < n ==> other[i] == r[i] - g
    ensures Squares(other) == Squares(r) + n as real * Times(g, g)
  {
    var off := seq(n, i => -g);
    ConstantIsOrthogonal(r, off, -g);
    SquaresOfSum(r, off, other);
    ConstantSquares(off, g);
  }

  lemma {:induction false} LineOffset(xs: seq<real>, ys: seq<real>, slope: real, intercept: real, returned: real,
                                      x0: real, gap: real)
    requires |xs| == |ys| && returned == intercept + slope * x0 && gap == 2.0 * slope * x0
    ensures forall i :: 0 <= i < |xs| ==>
      Residuals(xs, ys, slope, returned)[i] == Residuals(Minus(xs, x0), ys, slope, intercept)[i] - gap
  {
    forall i | 0 <= i < |xs|
      ensures Residuals(xs, ys, slope, returned)[i] == Residuals(Minus(xs, x0), ys, slope, intercept)[i] - gap
    {
      assert slope * (xs[i] - x0) == slope * xs[i] - slope * x0;
    }
  }

  /** The squared error of missing `n` samples by `gap`. */
  function ErrorOf(gap: real, n: nat): real {
    if n == 0 then 0.0 else ErrorOf(gap, n - 1) + Times(gap, gap)
  }

  lemma {:induction false} ErrorIsProduct(gap: real, n: nat)
    ensures ErrorOf(gap, n) == n as real * Times(gap, gap)
  {
    if n > 0 {
      ErrorIsProduct(gap, n - 1);
      assert n as real == (n - 1) as real + 1.0;
    }
  }

  lemma {:induction false} ExcessError(r: seq<real>, other: seq<real>, gap: real, n: nat)
    requires |r| == |other| == n && Sum(r) == 0.0
    requires forall i :: 0 <= i < n ==> other[i] == r[i] - gap
    ensures Squares(other) == Squares(r) + ErrorOf(gap, n)
  {
    OffsetAddsSquares(r, other, gap, n);
    ErrorIsProduct(gap, n);
  }

  lemma {:induction false} ReturnedOffset(xs: seq<real>, ys: seq<real>, gap: real)
    returns (best: seq<real>, returned: seq<real>)
    requires |xs| == |ys| > 0 && Varies(xs) && gap == 2.0 * Ols(xs, ys).slope * xs[0]
    ensures best == Residuals(Minus(xs, xs[0]), ys, Ols(xs, ys).slope, ShiftedIntercept(xs, ys))
    ensures returned == Residuals(xs, ys, Ols(xs, ys).slope, Ols(xs, ys).intercept)
    ensures Sum(best) == 0.0
    ensures forall i :: 0 <= i < |xs| ==> returned[i] == best[i] - gap
  {
    var fit := Ols(xs, ys);
    best := Residuals(Minus(xs, xs[0]), ys, fit.slope, ShiftedIntercept(xs, ys));
    returned := Residuals(xs, ys, fit.slope, fit.intercept);
    OlsSlope(xs, ys);
    SlopeIsNormal(Minus(xs, xs[0]), ys);
    LineOffset(xs, ys, fit.slope, ShiftedIntercept(xs, ys), fit.intercept, xs[0], gap);
  }

  /** The line that is returned, taken at the original time stamps, misses the best fit by the same `gap` at
      every sample, and its squared error exceeds the least one by the square of `gap` for each of them. */
  lemma {:induction false} ReturnedResiduals(xs: seq<real>, ys: seq<real>, gap: real)
    returns (best: seq<real>, returned: seq<real>)
    requires |xs| == |ys| > 0 && Varies(xs) && gap == 2.0 * Ols(xs, ys).slope * xs[0]
    ensures best == Residuals(Minus(xs, xs[0]), ys, Ols(xs, ys).slope, ShiftedIntercept(xs, ys))
    ensures returned == Residuals(xs, ys, Ols(xs, ys).slope, Ols(xs, ys).intercept)
    ensures |best| == |returned| == |xs| && Sum(best) == 0.0
    ensures forall i :: 0 <= i < |xs| ==> returned[i] == best[i] - gap
    ensures Squares(returned) == Squares(best) + ErrorOf(gap, |xs|)
  {
    best, returned := ReturnedOffset(xs, ys, gap);
    ExcessError(best, returned, gap, |xs|);
  }

  /** The total splits into the residual and the explained part, R squared is the explained share, and
      so the clamp at zero never changes it. */
  lemma {:induction false} OlsRSquared(xs: seq<real>, ys: seq<real>)
    requires |xs| == |ys| > 0 && Varies(xs)
    ensures
      var shifted, fit := Minus(xs, xs[0]), Ols(xs, ys);
      var ssXX, ssTot := Squares(Centred(shifted)), Squares(Centred(ys));
      var ssRes := Squares(Residuals(shifted, ys, fit.slope, ShiftedIntercept(xs, ys)));
      && ssTot == ssRes + fit.slope * fit.slope * ssXX
      && 0.0 <= fit.r2 <= 1.0
      && fit.r2 == RSquared(ssRes, ssTot)
      && fit.r2 * ssTot == fit.slope * fit.slope * ssXX
  {
    var shifted := Minus(xs, xs[0]);
    OlsSlope(xs, ys);
    SlopeIsNormal(shifted, ys);
    var slope := Slope(shifted, ys);
    Decomposition(shifted, ys, Mean(shifted), Mean(ys), slope, Intercept(shifted, ys));
    ScaledSquares(Centred(shifted), Scaled(Centred(shifted), slope), slope);
    SquaresNonNegative(Scaled(Centred(shifted), slope));
    SquaresNonNegative(Residuals(shifted, ys, slope, Intercept(shifted, ys)));
    ExplainedShare(Squares(Centred(ys)), Squares(Residuals(shifted, ys, slope, Intercept(shifted, ys))),
                   Squares(Scaled(Centred(shifted), slope)));
  }

  /** Samples that all bear the same time stamp have no trend. */
  lemma {:induction false} SameStampsHaveNoTrend(xs: seq<real>, ys: seq<real>)
    requires |xs| == |ys| > 0 && !Varies(xs)
    ensures Ols(xs, ys) == Fit(0.0, Mean(ys), 0.0)
  {
    SpreadIffVaries(xs);
  }

  lemma {:induction false} LineSum(us: seq<real>, ys: seq<real>, m: real, k: real)
    requires |us| == |ys| && forall i :: 0 <= i < |us| ==> ys[i] == Times(m, us[i]) + k
    ensures Sum(ys) == Times(m, Sum(us)) + |us| as real * k
  {
    if us != [] {
      var n := |us| - 1;
      LineSum(us[..n], ys[..n], m, k);
      Distribute(m, Sum(us[..n]), us[n]);
      Distribute(k, n as real, 1.0);
    }
  }

  lemma {:induction false} LineMean(us: seq<real>, ys: seq<real>, m: real, k: real)
    requires |us| == |ys| > 0 && forall i :: 0 <= i < |us| ==> ys[i] == Times(m, us[i]) + k
    ensures Mean(ys) == Times(m, Mean(us)) + k
  {
    LineSum(us, ys, m, k);
    MeanOfLine(Sum(ys), Sum(us), |us| as real, m, k);
  }

  lemma {:induction false} MeanOfLine(sy: real, su: real, n: real, m: real, k: real)
    requires n > 0.0 && sy == Times(m, su) + n * k
    ensures sy / n == Times(m, su / n) + k
  {
    DivideBack(su, n);
    assert Times(m, su) == Times(m, su / n) * n;
    assert sy == (Times(m, su / n) + k) * n;
  }

  /** A line through the stamps is one through the stamps counted from the first. */
  lemma {:induction false} LineFromFirst(xs: seq<real>, ys: seq<real>, m: real, b: real)
    requires |xs| == |ys| > 0 && OnLine(xs, ys, m, b)
    ensures OnLine(Minus(xs, xs[0]), ys, m, Times(m, xs[0]) + b)
  {
    forall i | 0 <= i < |xs|
      ensures ys[i] == Times(m, Minus(xs, xs[0])[i]) + (Times(m, xs[0]) + b)
    {
      Distribute(m, Minus(xs, xs[0])[i], xs[0]);
    }
  }

  /** The deviations from the mean of samples on a line are those of the stamps, scaled. */
  lemma {:induction false} LineDeviations(xs: seq<real>, ys: seq<real>, m: real, b: real)
    requires |xs| == |ys| > 0 && OnLine(xs, ys, m, b)
    ensures Centred(ys) == Scaled(Centred(xs), m)
  {
    LineMean(xs, ys, m, b);
    forall i | 0 <= i < |xs|
      ensures Centred(ys)[i] == Scaled(Centred(xs), m)[i]
    {
      Distribute(m, xs[i], -Mean(xs));
      Distribute(m, Mean(xs), -Mean(xs));
    }
  }

  lemma {:induction false} ScaledSlope(xs: seq<real>, ys: seq<real>, m: real)
    requires |xs| == |ys| > 0 && Squares(Centred(xs)) != 0.0 && Centred(ys) == Scaled(Centred(xs), m)
    ensures Slope(xs, ys) == m
  {
    ScaledDotOf(Centred(xs), Centred(xs), m);
    SlopeOfLine(m, Dot(Centred(xs), Centred(xs)), Dot(Centred(xs), Centred(ys)));
  }

  lemma {:induction false} SlopeOfLine(m: real, xx: real, xy: real)
    requires xx != 0.0 && xy == m * xx
    ensures xy / xx == m
  {}

  ghost predicate OnLine(xs: seq<real>, ys: seq<real>, m: real, b: real)
    requires |xs| == |ys|
  {
    forall i :: 0 <= i < |xs| ==> ys[i] == Times(m, xs[i]) + b
  }

  lemma {:induction false} LineSlope(xs: seq<real>, ys: seq<real>, m: real, b: real)
    requires |xs| == |ys| > 0 && Varies(xs) && OnLine(xs, ys, m, b)
    ensures Ols(xs, ys).slope == m
    ensures Centred(ys) == Scaled(Centred(Minus(xs, xs[0])), m)
  {
    var us := Minus(xs, xs[0]);
    OlsSlope(xs, ys);
    LineFromFirst(xs, ys, m, b);
    LineDeviations(us, ys, m, Times(m, xs[0]) + b);
    ScaledSlope(us, ys, m);
  }

  lemma {:induction false} LineSquares(dx: seq<real>, dy: seq<real>, m: real)
    requires dy == Scaled(dx, m)
    ensures Squares(dy) == m * m * Squares(dx)
  {
    ScaledSquares(dx, dy, m);
  }

  lemma {:induction false} LevelHasNoFit(xs: seq<real>, ys: seq<real>)
    requires |xs| == |ys| > 0 && Varies(xs) && Squares(Centred(ys)) == 0.0
    ensures Ols(xs, ys).r2 == 0.0
  {
    OlsRSquared(xs, ys);
  }

  lemma {:induction false} SlantedFits(xs: seq<real>, ys: seq<real>)
    requires |xs| == |ys| > 0 && Varies(xs) && Ols(xs, ys).slope != 0.0
    requires Squares(Centred(ys)) == Ols(xs, ys).slope * Ols(xs, ys).slope * Squares(Centred(Minus(xs, xs[0])))
    ensures Ols(xs, ys).r2 == 1.0
  {
    OlsRSquared(xs, ys);
    OlsSlope(xs, ys);
    SquaresNonNegative(Centred(Minus(xs, xs[0])));
    WholeShare(Ols(xs, ys).slope, Squares(Centred(Minus(xs, xs[0]))), Squares(Centred(ys)), Ols(xs, ys).r2);
  }

  lemma {:induction false} WholeShare(m: real, xx: real, whole: real, share: real)
    requires m != 0.0 && xx > 0.0 && whole == m * m * xx && share * whole == whole
    ensures share == 1.0
  {
    SquareSign(m);
    SameSign(m * m, xx);
    assert whole != 0.0;
    assert share == share * whole / whole;
  }

  /** Samples that lie on a line have its slope, and fit it perfectly unless it is level. */
  lemma {:induction false} LineIsFound(xs: seq<real>, ys: seq<real>, m: real, b: real)
    requires |xs| == |ys| > 0 && Varies(xs) && OnLine(xs, ys, m, b)
    ensures Ols(xs, ys).slope == m && Ols(xs, ys).r2 == if m != 0.0 then 1.0 else 0.0
  {
    LineSlope(xs, ys, m, b);
    LineSquares(Centred(Minus(xs, xs[0])), Centred(ys), m);
    if m != 0.0 {
      SlantedFits(xs, ys);
    } else {
      TimesZero(Squares(Centred(Minus(xs, xs[0]))), m * m);
      LevelHasNoFit(xs, ys);
    }
  }

  lemma {:induction false} ExplainedShare(tot: real, res: real, explained: real)
    requires tot == res + explained && res >= 0.0 && explained >= 0.0
    ensures 0.0 <= RSquared(res, tot) <= 1.0
    ensures RSquared(res, tot) * tot == explained
  {
    if tot > 0.0 {
      QuotientBounds(res, tot);
      Distribute(tot, 1.0, -res / tot);
    }
  }

  lemma {:induction false} QuotientBounds(a: real, b: real)
    requires 0.0 <= a <= b && b > 0.0
    ensures 0.0 <= a / b <= 1.0 && a / b * b == a
  {}

  /** Slope and R squared do not depend on where time starts. */
  lemma {:induction false} OlsShiftInvariant(xs: seq<real>, ys: seq<real>, c: real)
    requires |xs| == |ys| > 0
    ensures
      var moved := Minus(xs, c);
      Ols(moved, ys).slope == Ols(xs, ys).slope && Ols(moved, ys).r2 == Ols(xs, ys).r2
  {
    var moved := Minus(xs, c);
    assert Minus(moved, moved[0]) == Minus(xs, xs[0]);
  }

  // --- The predictor ---------------------------------------------------------------------------

  function Stamps(s: seq<Sample>): (r: seq<real>)
    ensures |r| == |s| && forall i :: 0 <= i < |s| ==> r[i] == s[i].timestamp
  {
    seq(|s|, i requires 0 <= i < |s| => s[i].timestamp)
  }

  function Values(s: seq<Sample>): (r: seq<real>)
    ensures |r| == |s| && forall i :: 0 <= i < |s| ==> r[i] == s[i].value
  {
    seq(|s|, i requires 0 <= i < |s| => s[i].value)
  }

  /** The last `n` elements, or all of them. */
  function LastN<T>(s: seq<T>, n: nat): seq<T> {
    if |s| <= n then s else s[|s| - n..]
  }

  /** The end of `all`, as long as `all` or `n` allow. */
  ghost predicate IsEnd(kept: seq<Sample>, all: seq<Sample>, n: nat) {
    |kept| == (if |all| < n then |all| else n) && kept == all[|all| - |kept|..]
  }

  /** One more element pushes the oldest out of a full window, and is the newest of any that holds something. */
  lemma {:induction false} PushedIsEnd(kept: seq<Sample>, all: seq<Sample>, x: Sample, n: nat)
    requires IsEnd(kept, all, n)
    ensures
      var more := kept + [x];
      var next := if |more| > n then more[1..] else more;
      IsEnd(next, all + [x], n) && (n > 0 ==> next != [] && next[|next| - 1] == x)
  {}

  class TrendPredictor {
    const threshold: real
    const lookAhead: real
    const windowSize: nat
    const minSamples: int
    const minR2: real
    var samples: seq<Sample>
    ghost var pushed: seq<Sample>

    ghost predicate Valid()
      reads this
    {
      IsEnd(samples, pushed, windowSize)
    }

    constructor (threshold: real, lookAhead: real := 1800.0, windowSize: nat := 20, minSamples: int := 5,
                 minR2: real := 0.7)
      ensures Valid() && pushed == []
      ensures this.threshold == threshold && this.lookAhead == lookAhead && this.windowSize == windowSize
      ensures this.minSamples == minSamples && this.minR2 == minR2
    {
      this.threshold, this.lookAhead, this.windowSize := threshold, lookAhead, windowSize;
      this.minSamples, this.minR2 := minSamples, minR2;
      samples, pushed := [], [];
    }

    /** A missing time stamp, and the falsy time stamp zero, are replaced by the clock. */
    method Push(value: real, timestamp: Option<real>, clock: real)
      requires Valid()
      modifies this
      ensures Valid()
      ensures pushed == old(pushed)
        + [Sample(if timestamp == None || timestamp == Some(0.0) then clock else timestamp.value, value)]
      ensures |samples| == if |pushed| < windowSize then |pushed| else windowSize
      ensures samples == pushed[|pushed| - |samples|..]
      ensures windowSize > 0 ==> samples != [] && samples[|samples| - 1].value == value
    {
      var at := clock;
      if timestamp.Some? && timestamp.value != 0.0 {
        at := timestamp.value;
      }
      PushedIsEnd(samples, pushed, Sample(at, value), windowSize);
      samples := samples + [Sample(at, value)];
      pushed := pushed + [Sample(at, value)];
      if |samples| > windowSize {
        samples := samples[1..];
      }
    }

    /** An alert is raised exactly when the fit is tight and rising and reaches the threshold in time;
        then it reports the fit and the projection. */
    method Evaluate() returns (e: Evaluation)
      ensures e.RaisesOnEmpty? <==> |samples| >= minSamples && samples == []
      ensures e.Alert? <==>
        && |samples| >= minSamples && samples != []
        && var fit := Ols(Stamps(samples), Values(samples));
        && fit.r2 >= minR2 && fit.slope > 0.0
        && samples[|samples| - 1].value <= threshold
        && threshold <= samples[|samples| - 1].value + fit.slope * lookAhead
      ensures e.Alert? ==>
        var fit, last := Ols(Stamps(samples), Values(samples)), samples[|samples| - 1];
        && e.alert.current == last.value
        && e.alert.current + fit.slope * e.alert.breachIn == threshold
        && e.alert.projected == fit.intercept + fit.slope * (last.timestamp + e.alert.breachIn)
        && e.alert.slope == fit.slope && e.alert.confidence == fit.r2
    {
      if |samples| < minSamples {
        return NoAlert;
      }
      if samples == [] {
        return RaisesOnEmpty;
      }
      var xs, ys := Stamps(samples), Values(samples);
      var fit := Ols(xs, ys);
      if fit.r2 < minR2 {
        return NoAlert;
      }
      if fit.slope <= 0.0 {
        return NoAlert;
      }
      var current, now := ys[|ys| - 1], xs[|xs| - 1];
      var timeToBreach := (threshold - current) / fit.slope;
      BreachTime(threshold - current, fit.slope, lookAhead);
      if timeToBreach < 0.0 || timeToBreach > lookAhead {
        return NoAlert;
      }
      var projected := fit.intercept + fit.slope * (now + timeToBreach);
      return Alert(TrendAlert(current, projected, timeToBreach, fit.slope, fit.r2));
    }
  }

  lemma {:induction false} BreachTime(rise: real, slope: real, limit: real)
    requires slope > 0.0
    ensures slope * (rise / slope) == rise
    ensures rise / slope < 0.0 <==> rise < 0.0
    ensures rise / slope > limit <==> rise > slope * limit
  {
    var t := rise / slope;
    assert slope * t == rise;
    if t > limit {
      assert slope * (t - limit) > 0.0;
    } else {
      assert slope * (limit - t) >= 0.0;
    }
  }

  /** The projection misses the threshold by the residual of the last sample and, because the shift by
      the first time stamp is added instead of subtracted, by exactly `2 * slope * xs[0]`. */
  lemma {:induction false} ProjectionGap(xs: seq<real>, ys: seq<real>, threshold: real, breachIn: real)
    requires |xs| == |ys| > 0
    requires ys[|ys| - 1] + Ols(xs, ys).slope * breachIn == threshold
    ensures
      var fit, n := Ols(xs, ys), |xs| - 1;
      var lastResidual := Residuals(Minus(xs, xs[0]), ys, fit.slope, ShiftedIntercept(xs, ys))[n];
      var projected := fit.intercept + fit.slope * (xs[n] + breachIn);
      && projected == threshold - lastResidual + 2.0 * fit.slope * xs[0]
      && (fit.slope > 0.0 ==> (projected == threshold - lastResidual <==> xs[0] == 0.0))
  {
    var fit, n := Ols(xs, ys), |xs| - 1;
    assert fit.slope * (xs[n] - xs[0]) == fit.slope * xs[n] - fit.slope * xs[0];
    assert fit.slope * (xs[n] + breachIn) == fit.slope * xs[n] + fit.slope * breachIn;
    assert fit.slope > 0.0 && xs[0] != 0.0 ==> fit.slope * xs[0] != 0.0;
  }
}
