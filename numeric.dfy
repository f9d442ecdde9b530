/**
  Numeric building blocks that the formulas borrow from numpy and scipy,
  written out over the reals:

  - a first-degree least-squares line, the closed form of
    `numpy.polyfit(x, y, 1)`, characterised by its normal equations;
  - linear interpolation with linear extrapolation past both ends, the
    behaviour of `scipy.interpolate.interp1d(x, y, fill_value='extrapolate')`
    (the default `kind='linear'`): the query point is located with a
    scan for the first table entry at or above it (numpy's left insertion
    point on a sorted table), the index is clipped to [1, n-1], and the
    straight line through the two neighbouring table points is evaluated.
*/
module Numeric {

  // ---------------------------------------------------------------------
  // Sums

  /** The sum of the first n elements of `s`. */
  function SumTo(s: seq<real>, n: nat): real
    requires n <= |s|
  {
    if n == 0 then 0.0 else SumTo(s, n - 1) + s[n - 1]
  }

  /** The sum of the elements of `s`. */
  function Sum(s: seq<real>): real
  {
    SumTo(s, |s|)
  }

  /** The pairwise products of `xs` and `ys`. */
  function Products(xs: seq<real>, ys: seq<real>): (r: seq<real>)
    requires |xs| == |ys|
    ensures |r| == |xs|
  {
    seq(|xs|, i requires 0 <= i < |xs| => xs[i] * ys[i])
  }

  /** The sum of the pairwise products of `xs` and `ys`. */
  function Dot(xs: seq<real>, ys: seq<real>): real
    requires |xs| == |ys|
  {
    Sum(Products(xs, ys))
  }

  /** The number of elements of `s`, as a real. */
  function Count(s: seq<real>): real
  {
    |s| as real
  }

  /** Every element of `s` divided by `d` (numpy's `array / scalar`). */
  function DivideEach(s: seq<real>, d: real): (r: seq<real>)
    requires d != 0.0
    ensures |r| == |s|
  {
    seq(|s|, i requires 0 <= i < |s| => s[i] / d)
  }

  /** p / d + q / d == (p + q) / d. */
  lemma SumOfQuotients(p: real, q: real, d: real)
    requires d != 0.0
    ensures p / d + q / d == (p + q) / d
  {
  }

  /** x (y / d) == (x y) / d. */
  lemma ProductWithQuotient(x: real, y: real, d: real)
    requires d != 0.0
    ensures x * (y / d) == (x * y) / d
  {
  }

  /** Dividing every element by d divides every partial sum by d. */
  lemma {:induction false} SumToDivideEach(s: seq<real>, d: real, n: nat)
    requires d != 0.0 && n <= |s|
    ensures SumTo(DivideEach(s, d), n) == SumTo(s, n) / d
    decreases n
  {
    if n > 0 {
      SumToDivideEach(s, d, n - 1);
      SumOfQuotients(SumTo(s, n - 1), s[n - 1], d);
    }
  }

  /** Dividing every element by d divides the sum by d. */
  lemma SumDivideEach(s: seq<real>, d: real)
    requires d != 0.0
    ensures Sum(DivideEach(s, d)) == Sum(s) / d
  {
    SumToDivideEach(s, d, |s|);
  }

  /** Dividing one factor of every product by d divides the product by d. */
  lemma ProductsDivideEach(xs: seq<real>, ys: seq<real>, d: real)
    requires |xs| == |ys| && d != 0.0
    ensures Products(xs, DivideEach(ys, d)) == DivideEach(Products(xs, ys), d)
  {
    forall i | 0 <= i < |xs|
      ensures Products(xs, DivideEach(ys, d))[i] == DivideEach(Products(xs, ys), d)[i]
    {
      ProductWithQuotient(xs[i], ys[i], d);
    }
  }

  /** Dividing one side of a dot product elementwise by d divides it by d. */
  lemma DotDivideEach(xs: seq<real>, ys: seq<real>, d: real)
    requires |xs| == |ys| && d != 0.0
    ensures Dot(xs, DivideEach(ys, d)) == Dot(xs, ys) / d
  {
    ProductsDivideEach(xs, ys, d);
    SumDivideEach(Products(xs, ys), d);
  }

  // ---------------------------------------------------------------------
  // Ordinary least squares, degree 1

  /** The least-squares slope from the five sums of a point set: the
      count n and the sums of x, y, x^2 and x*y. */
  function FitSlope(n: real, sx: real, sy: real, sxx: real, sxy: real): real
    requires n * sxx - sx * sx != 0.0
  {
    (n * sxy - sx * sy) / (n * sxx - sx * sx)
  }

  /** The least-squares intercept from the same five sums. */
  function FitIntercept(n: real, sx: real, sy: real, sxx: real, sxy: real): real
    requires n != 0.0 && n * sxx - sx * sx != 0.0
  {
    (sy - FitSlope(n, sx, sy, sxx, sxy) * sx) / n
  }

  /** n * sum(x^2) - (sum x)^2: zero exactly when all abscissae coincide. */
  function SpreadX(xs: seq<real>): real
  {
    Count(xs) * Dot(xs, xs) - Sum(xs) * Sum(xs)
  }

  /** A point set for which a unique least-squares line exists. */
  predicate Fittable(xs: seq<real>, ys: seq<real>)
  {
    |xs| == |ys| && |xs| > 0 && SpreadX(xs) != 0.0
  }

  /** Slope of the least-squares line y = a x + b (polyfit's coefficient 0). */
  function OlsSlope(xs: seq<real>, ys: seq<real>): real
    requires Fittable(xs, ys)
  {
    FitSlope(Count(xs), Sum(xs), Sum(ys), Dot(xs, xs), Dot(xs, ys))
  }

  /** Intercept of the least-squares line (polyfit's coefficient 1). */
  function OlsIntercept(xs: seq<real>, ys: seq<real>): real
    requires Fittable(xs, ys)
  {
    FitIntercept(Count(xs), Sum(xs), Sum(ys), Dot(xs, xs), Dot(xs, ys))
  }

  /** The residuals y_i - (a x_i + b) of the line (a, b) on the points. */
  function Residuals(xs: seq<real>, ys: seq<real>, a: real, b: real): (r: seq<real>)
    requires |xs| == |ys|
    ensures |r| == |xs|
  {
    seq(|xs|, i requires 0 <= i < |xs| => ys[i] - (a * xs[i] + b))
  }

  /** The first n residuals sum to the first n ordinates, less a times the
      first n abscissae, less n b. */
  lemma {:induction false} SumToResiduals(xs: seq<real>, ys: seq<real>, a: real, b: real, n: nat)
    requires |xs| == |ys| && n <= |xs|
    ensures SumTo(Residuals(xs, ys, a, b), n) == SumTo(ys, n) - a * SumTo(xs, n) - (n as real) * b
    decreases n
  {
    if n > 0 {
      SumToResiduals(xs, ys, a, b, n - 1);
    }
  }

  /** The elementwise combination u_i - a v_i - b t_i of three sequences. */
  function Combination(us: seq<real>, vs: seq<real>, ts: seq<real>, a: real, b: real): (r: seq<real>)
    requires |us| == |vs| == |ts|
    ensures |r| == |us|
  {
    seq(|us|, i requires 0 <= i < |us| => us[i] - a * vs[i] - b * ts[i])
  }

  /** Partial sums are linear: the combination sums to the same combination
      of the sums. */
  lemma {:induction false} SumToCombination(us: seq<real>, vs: seq<real>, ts: seq<real>, a: real, b: real, n: nat)
    requires |us| == |vs| == |ts| && n <= |us|
    ensures SumTo(Combination(us, vs, ts, a, b), n) == SumTo(us, n) - a * SumTo(vs, n) - b * SumTo(ts, n)
    decreases n
  {
    if n > 0 {
      SumToCombination(us, vs, ts, a, b, n - 1);
    }
  }

  /** Sums are linear. */
  lemma SumCombination(us: seq<real>, vs: seq<real>, ts: seq<real>, a: real, b: real)
    requires |us| == |vs| == |ts|
    ensures Sum(Combination(us, vs, ts, a, b)) == Sum(us) - a * Sum(vs) - b * Sum(ts)
  {
    SumToCombination(us, vs, ts, a, b, |us|);
  }

  /** One point's residual moment, x (y - (a x + b)), expanded. */
  lemma ResidualMoment(x: real, y: real, a: real, b: real)
    ensures x * (y - (a * x + b)) == x * y - a * (x * x) - b * x
  {
  }

  /** Each residual moment x_i r_i is x_i y_i - a x_i^2 - b x_i. */
  lemma ResidualMoments(xs: seq<real>, ys: seq<real>, a: real, b: real)
    requires |xs| == |ys|
    ensures Products(xs, Residuals(xs, ys, a, b)) == Combination(Products(xs, ys), Products(xs, xs), xs, a, b)
  {
    forall i | 0 <= i < |xs|
      ensures Products(xs, Residuals(xs, ys, a, b))[i] == Combination(Products(xs, ys), Products(xs, xs), xs, a, b)[i]
    {
      ResidualMoment(xs[i], ys[i], a, b);
    }
  }

  /** The line (a, b) satisfies the two normal equations of least squares:
      its residuals sum to zero and are orthogonal to the abscissae. */
  predicate NormalEquations(xs: seq<real>, ys: seq<real>, a: real, b: real)
    requires |xs| == |ys|
  {
    Sum(Residuals(xs, ys, a, b)) == 0.0 && Dot(xs, Residuals(xs, ys, a, b)) == 0.0
  }

  /** The algebra behind the normal equations, on the sums alone: with
      n > 0 points and n * sxx - sx^2 nonzero, the residual sum
      sy - a sx - n b and the residual moment sxy - a sxx - b sx both vanish
      exactly for the closed-form slope and intercept. */
  predicate SumsSolve(n: real, sx: real, sy: real, sxx: real, sxy: real, a: real, b: real)
  {
    sy - a * sx - n * b == 0.0 && sxy - a * sxx - b * sx == 0.0
  }

  lemma NormalEquationsAlgebra(n: real, sx: real, sy: real, sxx: real, sxy: real, a: real, b: real)
    requires n > 0.0 && n * sxx - sx * sx != 0.0
    ensures SumsSolve(n, sx, sy, sxx, sxy, a, b)
        <==> (a == FitSlope(n, sx, sy, sxx, sxy) && b == FitIntercept(n, sx, sy, sxx, sxy))
  {
    var d := n * sxx - sx * sx;
    var num := n * sxy - sx * sy;
    var e1 := sy - a * sx - n * b;
    var e2 := sxy - a * sxx - b * sx;
    NormalEquationsCombined(n, sx, sy, sxx, sxy, a, b);
    QuotientIff(a, num, d);
    QuotientIff(b, sy - a * sx, n);
    assert n * e2 == 0.0 <==> e2 == 0.0;
  }

  /** n times the moment equation less sx times the sum equation leaves
      the slope equation n sxy - sx sy = a (n sxx - sx^2). */
  lemma NormalEquationsCombined(n: real, sx: real, sy: real, sxx: real, sxy: real, a: real, b: real)
    ensures n * (sxy - a * sxx - b * sx) - sx * (sy - a * sx - n * b)
         == (n * sxy - sx * sy) - a * (n * sxx - sx * sx)
  {
  }

  /** For nonzero d, q == p / d exactly when d q == p. */
  lemma QuotientIff(q: real, p: real, d: real)
    requires d != 0.0
    ensures q == p / d <==> q * d == p
    ensures q * d == p <==> d * q == p
  {
  }

  /** The line (a, b) solves the normal equations exactly when the sums
      satisfy the algebraic form of them. */
  lemma NormalEquationsBySums(xs: seq<real>, ys: seq<real>, a: real, b: real)
    requires |xs| == |ys|
    ensures NormalEquations(xs, ys, a, b) <==>
      SumsSolve(Count(xs), Sum(xs), Sum(ys), Dot(xs, xs), Dot(xs, ys), a, b)
  {
    ResidualSum(xs, ys, a, b);
    ResidualMomentSum(xs, ys, a, b);
  }

  /** The residuals sum to sum y - a sum x - n b. */
  lemma ResidualSum(xs: seq<real>, ys: seq<real>, a: real, b: real)
    requires |xs| == |ys|
    ensures Sum(Residuals(xs, ys, a, b)) == Sum(ys) - a * Sum(xs) - Count(xs) * b
  {
    SumToResiduals(xs, ys, a, b, |xs|);
  }

  /** The residual moment is sum x y - a sum x^2 - b sum x. */
  lemma ResidualMomentSum(xs: seq<real>, ys: seq<real>, a: real, b: real)
    requires |xs| == |ys|
    ensures Dot(xs, Residuals(xs, ys, a, b)) == Dot(xs, ys) - a * Dot(xs, xs) - b * Sum(xs)
  {
    ResidualMoments(xs, ys, a, b);
    SumCombination(Products(xs, ys), Products(xs, xs), xs, a, b);
  }

  /** The closed-form line is the least-squares line: a line solves the
      normal equations exactly when it is the closed-form one. */
  lemma OlsNormalEquations(xs: seq<real>, ys: seq<real>, a: real, b: real)
    requires Fittable(xs, ys)
    ensures NormalEquations(xs, ys, a, b) <==> a == OlsSlope(xs, ys) && b == OlsIntercept(xs, ys)
  {
    NormalEquationsAlgebra(Count(xs), Sum(xs), Sum(ys), Dot(xs, xs), Dot(xs, ys), a, b);
    NormalEquationsBySums(xs, ys, a, b);
  }

  /** Dividing the ordinate sums by d divides the slope by d. */
  lemma FitSlopeDivide(n: real, sx: real, sy: real, sxx: real, sxy: real, d: real)
    requires n * sxx - sx * sx != 0.0 && d != 0.0
    ensures FitSlope(n, sx, sy / d, sxx, sxy / d) == FitSlope(n, sx, sy, sxx, sxy) / d
  {
    var p := n * sxy - sx * sy;
    DifferenceOverD(n, sxy, sx, sy, d);
    QuotientsCommute(p, n * sxx - sx * sx, d);
  }

  /** The intercept in terms of the slope a: the line through the mean
      point. */
  lemma FitInterceptWithSlope(n: real, sx: real, sy: real, sxx: real, sxy: real, a: real)
    requires n != 0.0 && n * sxx - sx * sx != 0.0 && a == FitSlope(n, sx, sy, sxx, sxy)
    ensures FitIntercept(n, sx, sy, sxx, sxy) == (sy - a * sx) / n
  {
  }

  /** Dividing the ordinate sums by d divides the intercept by d. */
  lemma FitInterceptDivide(n: real, sx: real, sy: real, sxx: real, sxy: real, d: real)
    requires n != 0.0 && n * sxx - sx * sx != 0.0 && d != 0.0
    ensures FitIntercept(n, sx, sy / d, sxx, sxy / d) == FitIntercept(n, sx, sy, sxx, sxy) / d
  {
    var a := FitSlope(n, sx, sy, sxx, sxy);
    FitSlopeDivide(n, sx, sy, sxx, sxy, d);
    FitInterceptWithSlope(n, sx, sy, sxx, sxy, a);
    FitInterceptWithSlope(n, sx, sy / d, sxx, sxy / d, a / d);
    InterceptOverD(FitIntercept(n, sx, sy / d, sxx, sxy / d), FitIntercept(n, sx, sy, sxx, sxy), sy, sx, a, n, d);
  }

  /** u (v / d) - w (z / d) == (u v - w z) / d. */
  lemma DifferenceOverD(u: real, v: real, w: real, z: real, d: real)
    requires d != 0.0
    ensures u * (v / d) - w * (z / d) == (u * v - w * z) / d
  {
  }

  /** The intercept i1 of the data divided by d, with slope a / d, is the
      intercept i0 of the data, with slope a, divided by d. */
  lemma InterceptOverD(i1: real, i0: real, sy: real, sx: real, a: real, n: real, d: real)
    requires n != 0.0 && d != 0.0
    requires i1 == (sy / d - (a / d) * sx) / n && i0 == (sy - a * sx) / n
    ensures i1 == i0 / d
  {
    assert sy / d - (a / d) * sx == (sy - a * sx) / d;
    QuotientsCommute(sy - a * sx, n, d);
  }

  /** (p / d) / q == (p / q) / d. */
  lemma QuotientsCommute(p: real, q: real, d: real)
    requires q != 0.0 && d != 0.0
    ensures (p / d) / q == (p / q) / d
  {
  }

  /** Dividing every ordinate by d divides the fitted line by d. */
  lemma OlsDivideEach(xs: seq<real>, ys: seq<real>, d: real)
    requires Fittable(xs, ys) && d != 0.0
    ensures Fittable(xs, DivideEach(ys, d))
    ensures OlsSlope(xs, DivideEach(ys, d)) == OlsSlope(xs, ys) / d
    ensures OlsIntercept(xs, DivideEach(ys, d)) == OlsIntercept(xs, ys) / d
  {
    SumDivideEach(ys, d);
    DotDivideEach(xs, ys, d);
    FitSlopeDivide(Count(xs), Sum(xs), Sum(ys), Dot(xs, xs), Dot(xs, ys), d);
    FitInterceptDivide(Count(xs), Sum(xs), Sum(ys), Dot(xs, xs), Dot(xs, ys), d);
  }

  // ---------------------------------------------------------------------
  // Linear interpolation with extrapolation

  /** Each element is larger than the one before it. */
  predicate StrictlyIncreasing(s: seq<real>)
  {
    forall i :: 0 < i < |s| ==> s[i - 1] < s[i]
  }

  lemma {:induction false} StrictlyIncreasingOrdered(s: seq<real>, i: int, j: int)
    requires StrictlyIncreasing(s) && 0 <= i < j < |s|
    ensures s[i] < s[j]
    decreases j - i
  {
    if i + 1 < j {
      StrictlyIncreasingOrdered(s, i, j - 1);
    }
  }

  /** The first index whose element is at least x, or |xs| if there is none;
      on a sorted table this is numpy's searchsorted(xs, x, side='left'). */
  function SearchSortedLeft(xs: seq<real>, x: real): (k: nat)
    ensures k <= |xs|
    ensures forall j :: 0 <= j < k ==> xs[j] < x
    ensures k < |xs| ==> x <= xs[k]
  {
    if |xs| == 0 || x <= xs[0] then 0 else 1 + SearchSortedLeft(xs[1..], x)
  }

  /** The value at x of the straight line through (x0, y0) and (x1, y1),
      written as scipy writes it: slope * (x - x0) + y0. */
  function Line(x0: real, y0: real, x1: real, y1: real, x: real): real
    requires x0 != x1
  {
    (y1 - y0) / (x1 - x0) * (x - x0) + y0
  }

  /** A table that the interpolation accepts. */
  predicate InterpTable(xs: seq<real>, ys: seq<real>)
  {
    |xs| == |ys| && |xs| >= 2 && StrictlyIncreasing(xs)
  }

  /** The segment whose line is evaluated at x: the search index clipped to
      [1, n-1], so points left of the table use the first segment and points
      right of it the last. The segment runs from index hi - 1 to hi. */
  function SegmentHigh(xs: seq<real>, x: real): (hi: nat)
    requires |xs| >= 2
    ensures 1 <= hi < |xs|
  {
    var k := SearchSortedLeft(xs, x);
    if k < 1 then 1 else if k > |xs| - 1 then |xs| - 1 else k
  }

  /** interp1d(xs, ys, fill_value='extrapolate')(x). */
  function Interp(xs: seq<real>, ys: seq<real>, x: real): real
    requires InterpTable(xs, ys)
  {
    var hi := SegmentHigh(xs, x);
    Line(xs[hi - 1], ys[hi - 1], xs[hi], ys[hi], x)
  }

  /** The same interpolation found by walking the segments from segment k
      leftwards: the first segment whose left end lies below x, or else the
      first one. */
  function InterpDown(xs: seq<real>, ys: seq<real>, k: nat, x: real): real
    requires InterpTable(xs, ys) && 1 <= k < |xs|
    decreases k
  {
    if k == 1 || xs[k - 1] < x then Line(xs[k - 1], ys[k - 1], xs[k], ys[k], x)
    else InterpDown(xs, ys, k - 1, x)
  }

  /** Once x lies at or below the right end of segment k (or k is the last
      segment), walking down from k picks the segment that the clipped
      search picks; in particular the walk from the last segment is the
      interpolation. */
  lemma {:induction false} InterpDownIsInterp(xs: seq<real>, ys: seq<real>, k: nat, x: real)
    requires InterpTable(xs, ys) && 1 <= k < |xs|
    requires k == |xs| - 1 || x <= xs[k]
    ensures InterpDown(xs, ys, k, x) == Interp(xs, ys, x)
    decreases k
  {
    var s := SearchSortedLeft(xs, x);
    if k == 1 || xs[k - 1] < x {
      if s < k - 1 {
        StrictlyIncreasingOrdered(xs, s, k - 1);
      }
      assert SegmentHigh(xs, x) == k;
    } else {
      InterpDownIsInterp(xs, ys, k - 1, x);
    }
  }

  /** At or below the first grid point the downward walk runs to the first
      segment. */
  lemma {:induction false} InterpDownBelow(xs: seq<real>, ys: seq<real>, k: nat, x: real)
    requires InterpTable(xs, ys) && 1 <= k < |xs| && x <= xs[0]
    ensures InterpDown(xs, ys, k, x) == Line(xs[0], ys[0], xs[1], ys[1], x)
    decreases k
  {
    if k > 1 {
      StrictlyIncreasingOrdered(xs, 0, k - 1);
      InterpDownBelow(xs, ys, k - 1, x);
    }
  }

  /** Between two neighbouring table points the interpolation is the line
      through them (at the two ends of the closed segment as well). */
  lemma InterpOnSegment(xs: seq<real>, ys: seq<real>, j: int, x: real)
    requires InterpTable(xs, ys) && 0 <= j < |xs| - 1 && xs[j] <= x <= xs[j + 1]
    ensures Interp(xs, ys, x) == Line(xs[j], ys[j], xs[j + 1], ys[j + 1], x)
  {
    var k := SearchSortedLeft(xs, x);
    if x == xs[j] && j > 0 {
      if k < j {
        StrictlyIncreasingOrdered(xs, k, j);
      }
      assert k == j;
      assert Interp(xs, ys, x) == ys[j];
    } else if j > 0 {
      if k <= j {
        if k < j {
          StrictlyIncreasingOrdered(xs, k, j);
        }
        assert false;
      }
      assert k == j + 1;
    } else {
      assert k <= 1;
    }
  }

  /** At a table abscissa the interpolation returns that row's ordinate. */
  lemma InterpAtGrid(xs: seq<real>, ys: seq<real>, k: int)
    requires InterpTable(xs, ys) && 0 <= k < |xs|
    ensures Interp(xs, ys, xs[k]) == ys[k]
  {
    if k < |xs| - 1 {
      InterpOnSegment(xs, ys, k, xs[k]);
    } else {
      InterpOnSegment(xs, ys, k - 1, xs[k]);
      LineAtEnd(xs[k - 1], ys[k - 1], xs[k], ys[k]);
    }
  }

  /** Left of the table the first segment's line is extended. */
  lemma InterpExtrapolateBelow(xs: seq<real>, ys: seq<real>, x: real)
    requires InterpTable(xs, ys) && x <= xs[0]
    ensures Interp(xs, ys, x) == Line(xs[0], ys[0], xs[1], ys[1], x)
  {
  }

  /** Right of the table the last segment's line is extended. */
  lemma InterpExtrapolateAbove(xs: seq<real>, ys: seq<real>, x: real)
    requires InterpTable(xs, ys) && xs[|xs| - 1] <= x
    ensures var n := |xs|;
      Interp(xs, ys, x) == Line(xs[n - 2], ys[n - 2], xs[n - 1], ys[n - 1], x)
  {
    var n := |xs|;
    var k := SearchSortedLeft(xs, x);
    if k < n - 1 {
      StrictlyIncreasingOrdered(xs, k, n - 1);
    }
  }

  /** On an increasing table, a point inside the table's range gets a value
      between the first and the last ordinate. */
  lemma InterpWithinRange(xs: seq<real>, ys: seq<real>, x: real)
    requires InterpTable(xs, ys) && StrictlyIncreasing(ys)
    requires xs[0] <= x <= xs[|xs| - 1]
    ensures ys[0] <= Interp(xs, ys, x) <= ys[|ys| - 1]
  {
    var n := |xs|;
    var hi := SegmentHigh(xs, x);
    var k := SearchSortedLeft(xs, x);
    assert xs[hi - 1] <= x <= xs[hi] by {
      if k == 0 {
        assert x == xs[0];
      }
    }
    var x0, x1, y0, y1 := xs[hi - 1], xs[hi], ys[hi - 1], ys[hi];
    LineBetween(x0, y0, x1, y1, x);
    if hi - 1 > 0 {
      StrictlyIncreasingOrdered(ys, 0, hi - 1);
    }
    if hi < n - 1 {
      StrictlyIncreasingOrdered(ys, hi, n - 1);
    }
  }

  /** The line passes through its second point. */
  lemma LineAtEnd(x0: real, y0: real, x1: real, y1: real)
    requires x0 != x1
    ensures Line(x0, y0, x1, y1, x1) == y1
  {
    assert (y1 - y0) / (x1 - x0) * (x1 - x0) == y1 - y0;
  }

  /** A rising line stays between its two end values on its segment. */
  lemma LineBetween(x0: real, y0: real, x1: real, y1: real, x: real)
    requires x0 < x1 && y0 < y1 && x0 <= x <= x1
    ensures y0 <= Line(x0, y0, x1, y1, x) <= y1
  {
    var dx, dy, u := x1 - x0, y1 - y0, x - x0;
    var s := dy / dx;
    assert s > 0.0;
    assert s * dx == dy;
    assert s * u >= 0.0;
    assert s * dx - s * u == s * (dx - u);
    assert s * (dx - u) >= 0.0;
    assert Line(x0, y0, x1, y1, x) == s * u + y0;
  }
}
