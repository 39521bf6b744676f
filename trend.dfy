/**
 * The short-term NDVI trend: an ordinary least-squares line through the last
 * `window` values against their positions 0, 1, ..., its slope classified
 * against a stability band, and the squared correlation as confidence.
 */
module Trend {
  import opened Numeric

  datatype Direction = Increasing | Decreasing | Stable | InsufficientData

  datatype TrendResult = TrendResult(slope: real, direction: Direction, confidence: real)

  /** The window the engine always uses. */
  const DefaultWindow: nat := 3
  /** A slope within [-0.03, 0.03] is stable. */
  const StableBand: real := 0.03

  /** `np.arange(n)` */
  function Positions(n: nat): (xs: seq<real>)
    ensures |xs| == n && forall i :: 0 <= i < n ==> xs[i] == i as real
  {
    seq(n, i requires 0 <= i < n => i as real)
  }

  /** Each value minus the mean of all of them. */
  function Centered(xs: seq<real>): (cs: seq<real>)
    requires |xs| > 0
    ensures |cs| == |xs| && forall i :: 0 <= i < |xs| ==> cs[i] == xs[i] - Mean(xs)
  {
    var m := Mean(xs);
    seq(|xs|, i requires 0 <= i < |xs| => xs[i] - m)
  }

  function Dot(a: seq<real>, b: seq<real>): real
    requires |a| == |b|
  {
    if a == [] then 0.0 else a[0] * b[0] + Dot(a[1..], b[1..])
  }

  /** Centered sum of squares of the positions of a window of `n` values. */
  function Sxx(n: nat): real
    requires n > 0
  {
    var cx := Centered(Positions(n));
    Dot(cx, cx)
  }

  function Sxy(ys: seq<real>): real
    requires |ys| > 0
  {
    Dot(Centered(Positions(|ys|)), Centered(ys))
  }

  function Syy(ys: seq<real>): real
    requires |ys| > 0
  {
    var cy := Centered(ys);
    Dot(cy, cy)
  }

  /** A quotient that is 0 when the divisor is 0. */
  function Quotient(n: real, d: real): real
  {
    if d == 0.0 then 0.0 else n / d
  }

  // Products and squares are named so that facts about their sign can be
  // stated on a single term.
  function Product(x: real, y: real): real { x * y }

  function Square(x: real): real { x * x }

  /**
   * The squared correlation c² / (x·y) of a cross moment c and two spreads
   * x and y; 0 when either spread is 0.
   */
  function CorrelationSquared(c: real, x: real, y: real): real
  {
    if x == 0.0 || y == 0.0 then 0.0 else Quotient(Square(c), Product(x, y))
  }

  /** p²·A − 2pq·C + q²·B: the squared norm of p·a − q·b in terms of A = a·a, B = b·b, C = a·b. */
  function Combination(p: real, q: real, A: real, B: real, C: real): real
  {
    Product(Square(p), A) - 2.0 * Product(Product(p, q), C) + Product(Square(q), B)
  }

  /**
   * `np.polyfit(x, y, 1)[0]`: the least-squares slope. A single point gives
   * the minimum-norm solution, whose slope is zero.
   */
  function Slope(ys: seq<real>): real
    requires |ys| > 0
  {
    Quotient(Sxy(ys), Sxx(|ys|))
  }

  /**
   * The squared Pearson correlation of positions and values; numpy's
   * correlation is NaN when either side is constant, which the source
   * replaces by zero.
   */
  function RSquared(ys: seq<real>): real
    requires |ys| > 0
  {
    CorrelationSquared(Sxy(ys), Sxx(|ys|), Syy(ys))
  }

  function Classify(slope: real): Direction
  {
    if slope < -StableBand then Decreasing
    else if slope > StableBand then Increasing
    else Stable
  }

  /**
   * `calculate_trend` on the `ndvi_mean` column: too few values give slope 0,
   * confidence 0 and no direction; otherwise only the last `window` values
   * are fitted.
   */
  function CalculateTrend(ndvis: seq<real>, window: nat): (t: TrendResult)
    requires window >= 1
    ensures t.direction == InsufficientData <==> |ndvis| < window
    ensures |ndvis| < window ==> t.slope == 0.0 && t.confidence == 0.0
    ensures t.direction == Decreasing <==> |ndvis| >= window && t.slope < -StableBand
    ensures t.direction == Increasing <==> |ndvis| >= window && t.slope > StableBand
    ensures t.direction == Stable <==> |ndvis| >= window && -StableBand <= t.slope <= StableBand
    ensures 0.0 <= t.confidence <= 1.0
    ensures |ndvis| >= window ==>
      t.slope == Slope(ndvis[|ndvis| - window..]) && t.confidence == RSquared(ndvis[|ndvis| - window..])
  {
    if |ndvis| < window then TrendResult(0.0, InsufficientData, 0.0)
    else
      var recent := ndvis[|ndvis| - window..];
      RSquaredBounds(recent);
      TrendResult(Slope(recent), Classify(Slope(recent)), RSquared(recent))
  }

  // ---------------------------------------------------------------------
  // Scalar facts
  // ---------------------------------------------------------------------

  lemma ProductPositive(x: real, y: real)
    requires x > 0.0 && y > 0.0
    ensures Product(x, y) > 0.0
  {
  }

  lemma ProductSign(x: real, y: real)
    ensures x > 0.0 && y < 0.0 ==> Product(x, y) < 0.0
  {
    if x > 0.0 && y < 0.0 {
      ProductPositive(x, -y);
      assert Product(x, -y) == -Product(x, y);
    }
  }

  lemma ProductZero(x: real, y: real)
    requires x != 0.0 && Product(x, y) == 0.0
    ensures y == 0.0
  {
  }

  lemma SquarePositive(x: real)
    requires x != 0.0
    ensures Square(x) > 0.0
  {
    if x > 0.0 {
      ProductPositive(x, x);
      assert Product(x, x) == Square(x);
    } else {
      ProductPositive(-x, -x);
      assert Product(-x, -x) == Square(x);
    }
  }

  lemma SquareNonNegative(x: real)
    ensures Square(x) >= 0.0
  {
    if x != 0.0 {
      SquarePositive(x);
    }
  }

  lemma FractionAtMostOne(n: real, d: real)
    requires 0.0 <= n <= d && d > 0.0
    ensures 0.0 <= Quotient(n, d) <= 1.0
  {
  }

  lemma QuotientSelf(n: real, d: real)
    requires n == d && d != 0.0
    ensures Quotient(n, d) == 1.0
  {
  }

  lemma QuotientScaled(n: real, d: real, b: real)
    ensures Quotient(Product(b, n), d) == Product(b, Quotient(n, d))
  {
    if d != 0.0 {
      var q := n / d;
      assert n == q * d;
      assert b * n == (b * q) * d;
    }
  }

  lemma QuotientTimesDivisor(n: real, d: real)
    requires d != 0.0
    ensures Product(Quotient(n, d), d) == n
  {
  }

  lemma QuotientOfMultiple(b: real, s: real)
    requires s != 0.0
    ensures Quotient(Product(b, s), s) == b
  {
  }

  lemma AffineMean(sx: real, sy: real, n: real, a: real, b: real)
    requires n > 0.0 && sy == n * a + b * sx
    ensures sy / n == a + b * (sx / n)
  {
    var m := sx / n;
    assert sx == m * n;
    assert sy == (a + b * m) * n;
  }

  /** From X > 0 and X·(A·B − C²) ≥ 0 follows C² ≤ A·B. */
  lemma ScalarCauchy(A: real, B: real, C: real, X: real)
    requires X > 0.0
    requires Product(X, Product(A, B) - Square(C)) >= 0.0
    ensures Square(C) <= Product(A, B)
  {
    ProductSign(X, Product(A, B) - Square(C));
  }

  /** The two factorisations used by Cauchy–Schwarz. */
  lemma CombinationFactors(A: real, B: real, C: real)
    ensures Combination(C, A, A, B, C) == Product(A, Product(A, B) - Square(C))
    ensures Combination(C, B, B, A, C) == Product(B, Product(A, B) - Square(C))
  {
  }

  /** A squared correlation whose cross moment is bounded by Cauchy–Schwarz lies in [0, 1]. */
  lemma CorrelationBounds(c: real, x: real, y: real)
    requires x >= 0.0 && y >= 0.0 && Square(c) <= Product(x, y)
    ensures 0.0 <= CorrelationSquared(c, x, y) <= 1.0
  {
    SquareNonNegative(c);
    if x != 0.0 && y != 0.0 {
      ProductPositive(x, y);
      FractionAtMostOne(Square(c), Product(x, y));
    }
  }

  /** Moments of an exact line of slope b: correlation 1 unless the line is flat. */
  lemma CorrelationOfLine(b: real, s: real, c: real, y: real)
    requires s > 0.0 && c == Product(b, s) && y == Product(b, Product(b, s))
    ensures CorrelationSquared(c, s, y) == if b != 0.0 then 1.0 else 0.0
  {
    if b != 0.0 {
      SquarePositive(b);
      ProductPositive(Square(b), s);
      assert y == Product(Square(b), s);
      ProductPositive(s, y);
      assert Square(c) == Product(s, y);
      QuotientSelf(Square(c), Product(s, y));
    }
  }

  /** One step of the expansion of Dot(p·a − q·b, p·a − q·b), on the heads and the tails' dot products. */
  lemma ExpandStep(p: real, q: real, a0: real, b0: real, c0: real,
                   A: real, B: real, C: real, R: real, DA: real, DB: real, DC: real, DR: real)
    requires c0 == p * a0 - q * b0
    requires R == Combination(p, q, A, B, C)
    requires DA == a0 * a0 + A && DB == b0 * b0 + B && DC == a0 * b0 + C && DR == c0 * c0 + R
    ensures DR == Combination(p, q, DA, DB, DC)
  {
  }

  // ---------------------------------------------------------------------
  // Algebra of the fit
  // ---------------------------------------------------------------------

  lemma {:induction false} DotSelfNonNegative(a: seq<real>)
    ensures Dot(a, a) >= 0.0
  {
    if a != [] {
      DotSelfNonNegative(a[1..]);
      SquareNonNegative(a[0]);
    }
  }

  lemma {:induction false} DotSymmetric(a: seq<real>, b: seq<real>)
    requires |a| == |b|
    ensures Dot(a, b) == Dot(b, a)
  {
    if a != [] {
      DotSymmetric(a[1..], b[1..]);
    }
  }

  /** Dot(p·a − q·b, p·a − q·b) expanded. */
  lemma {:induction false} DotCombination(a: seq<real>, b: seq<real>, c: seq<real>, p: real, q: real)
    requires |a| == |b| == |c|
    requires forall i :: 0 <= i < |c| ==> c[i] == p * a[i] - q * b[i]
    ensures Dot(c, c) == Combination(p, q, Dot(a, a), Dot(b, b), Dot(a, b))
  {
    if a != [] {
      var a', b', c' := a[1..], b[1..], c[1..];
      forall i | 0 <= i < |c'|
        ensures c'[i] == p * a'[i] - q * b'[i]
      {
        assert c'[i] == c[i + 1];
      }
      DotCombination(a', b', c', p, q);
      ExpandStep(p, q, a[0], b[0], c[0], Dot(a', a'), Dot(b', b'), Dot(a', b'), Dot(c', c'),
        Dot(a, a), Dot(b, b), Dot(a, b), Dot(c, c));
    }
  }

  /** Cauchy–Schwarz when a has a positive norm, via the norm of (a·b)·a − (a·a)·b. */
  lemma CauchySchwarzNonZero(a: seq<real>, b: seq<real>)
    requires |a| == |b| && Dot(a, a) > 0.0
    ensures Square(Dot(a, b)) <= Product(Dot(a, a), Dot(b, b))
  {
    var A, B, C := Dot(a, a), Dot(b, b), Dot(a, b);
    var c := seq(|a|, i requires 0 <= i < |a| => C * a[i] - A * b[i]);
    DotCombination(a, b, c, C, A);
    DotSelfNonNegative(c);
    CombinationFactors(A, B, C);
    ScalarCauchy(A, B, C, A);
  }

  /** Two vectors of zero norm have a zero dot product: a − b and a + b have squared norms −2·(a·b) and 2·(a·b). */
  lemma CauchySchwarzZero(a: seq<real>, b: seq<real>)
    requires |a| == |b| && Dot(a, a) == 0.0 && Dot(b, b) == 0.0
    ensures Dot(a, b) == 0.0
  {
    var d := seq(|a|, i requires 0 <= i < |a| => 1.0 * a[i] - 1.0 * b[i]);
    var e := seq(|a|, i requires 0 <= i < |a| => 1.0 * a[i] - (-1.0) * b[i]);
    DotCombination(a, b, d, 1.0, 1.0);
    DotCombination(a, b, e, 1.0, -1.0);
    DotSelfNonNegative(d);
    DotSelfNonNegative(e);
  }

  /** Cauchy–Schwarz: (a·b)² ≤ (a·a)(b·b). */
  lemma CauchySchwarz(a: seq<real>, b: seq<real>)
    requires |a| == |b|
    ensures Square(Dot(a, b)) <= Product(Dot(a, a), Dot(b, b))
  {
    DotSelfNonNegative(a);
    DotSelfNonNegative(b);
    if Dot(a, a) > 0.0 {
      CauchySchwarzNonZero(a, b);
    } else if Dot(b, b) > 0.0 {
      CauchySchwarzNonZero(b, a);
      DotSymmetric(a, b);
      assert Product(Dot(b, b), Dot(a, a)) == Product(Dot(a, a), Dot(b, b));
    } else {
      CauchySchwarzZero(a, b);
    }
  }

  /** The confidence is a proper fraction. */
  lemma RSquaredBounds(ys: seq<real>)
    requires |ys| > 0
    ensures 0.0 <= RSquared(ys) <= 1.0
  {
    var cx, cy := Centered(Positions(|ys|)), Centered(ys);
    DotSelfNonNegative(cx);
    DotSelfNonNegative(cy);
    CauchySchwarz(cx, cy);
    CorrelationBounds(Sxy(ys), Sxx(|ys|), Syy(ys));
  }

  lemma {:induction false} SumAffine(xs: seq<real>, ys: seq<real>, a: real, b: real)
    requires |xs| == |ys|
    requires forall i :: 0 <= i < |ys| ==> ys[i] == a + b * xs[i]
    ensures Sum(ys) == |xs| as real * a + b * Sum(xs)
  {
    if xs != [] {
      SumAffine(xs[1..], ys[1..], a, b);
    }
  }

  lemma {:induction false} DotScaled(u: seq<real>, v: seq<real>, w: seq<real>, b: real)
    requires |u| == |v| == |w|
    requires forall i :: 0 <= i < |w| ==> w[i] == b * v[i]
    ensures Dot(u, w) == Product(b, Dot(u, v))
  {
    if u != [] {
      DotScaled(u[1..], v[1..], w[1..], b);
    }
  }

  /** Centering removes an offset and keeps a scale factor. */
  lemma CenteredAffine(xs: seq<real>, ys: seq<real>, a: real, b: real)
    requires |xs| == |ys| > 0
    requires forall i :: 0 <= i < |ys| ==> ys[i] == a + b * xs[i]
    ensures forall i :: 0 <= i < |ys| ==> Centered(ys)[i] == b * Centered(xs)[i]
  {
    SumAffine(xs, ys, a, b);
    AffineMean(Sum(xs), Sum(ys), |xs| as real, a, b);
  }

  /** Second moment of a scaled sequence: Dot(w, w) = b²·Dot(v, v) when w = b·v. */
  lemma ScaledSpread(v: seq<real>, w: seq<real>, b: real)
    requires |v| == |w|
    requires forall i :: 0 <= i < |w| ==> w[i] == b * v[i]
    ensures Dot(w, w) == Product(b, Product(b, Dot(v, v)))
  {
    DotScaled(w, v, w, b);
    DotScaled(v, v, w, b);
    DotSymmetric(w, v);
  }

  /**
   * The moments of an affine image a + b·y of a window: the cross moment
   * scales by b, the spread by b², so the slope scales by b.
   */
  lemma TrendAffine(ys: seq<real>, zs: seq<real>, a: real, b: real)
    requires |ys| == |zs| > 0
    requires forall i :: 0 <= i < |zs| ==> zs[i] == a + b * ys[i]
    ensures Sxy(zs) == Product(b, Sxy(ys))
    ensures Syy(zs) == Product(b, Product(b, Syy(ys)))
    ensures Slope(zs) == Product(b, Slope(ys))
  {
    var cx, cy, cz := Centered(Positions(|ys|)), Centered(ys), Centered(zs);
    CenteredAffine(ys, zs, a, b);
    DotScaled(cx, cy, cz, b);
    ScaledSpread(cy, cz, b);
    QuotientScaled(Sxy(ys), Sxx(|ys|), b);
  }

  lemma {:induction false} PositiveSquare(a: seq<real>, k: nat)
    requires k < |a| && a[k] != 0.0
    ensures Dot(a, a) > 0.0
  {
    DotSelfNonNegative(a[1..]);
    if k > 0 {
      SquareNonNegative(a[0]);
      assert a[1..][k - 1] == a[k];
      PositiveSquare(a[1..], k - 1);
    } else {
      SquarePositive(a[0]);
    }
  }

  /** With two or more positions their spread is positive. */
  lemma PositionsSpread(n: nat)
    requires n >= 2
    ensures Sxx(n) > 0.0
  {
    var cx := Centered(Positions(n));
    assert cx[1] - cx[0] == 1.0;
    PositiveSquare(cx, if cx[0] != 0.0 then 0 else 1);
  }

  /**
   * A window lying exactly on the line a + b·i has slope b, and confidence 1
   * when b ≠ 0 (0 for a flat window, whose correlation is undefined).
   */
  lemma LinearWindow(ys: seq<real>, a: real, b: real)
    requires |ys| >= 2
    requires forall i :: 0 <= i < |ys| ==> ys[i] == a + b * i as real
    ensures Slope(ys) == b
    ensures RSquared(ys) == if b != 0.0 then 1.0 else 0.0
  {
    var n := |ys|;
    PositionsSpread(n);
    TrendAffine(Positions(n), ys, a, b);
    assert Sxy(Positions(n)) == Sxx(n);
    assert Syy(Positions(n)) == Sxx(n);
    QuotientOfMultiple(b, Sxx(n));
    CorrelationOfLine(b, Sxx(n), Sxy(ys), Syy(ys));
  }

  // ---------------------------------------------------------------------
  // The slope is the least-squares fit
  // ---------------------------------------------------------------------

  /** The residuals y_i − (c + b·i) of the values against the line c + b·i. */
  function Residuals(ys: seq<real>, c: real, b: real): (r: seq<real>)
    ensures |r| == |ys| && forall i :: 0 <= i < |ys| ==> r[i] == ys[i] - (c + b * i as real)
  {
    seq(|ys|, i requires 0 <= i < |ys| => ys[i] - (c + b * i as real))
  }

  /** Each value multiplied by b. */
  function Scaled(v: seq<real>, b: real): (w: seq<real>)
    ensures |w| == |v| && forall i :: 0 <= i < |v| ==> w[i] == b * v[i]
  {
    seq(|v|, i requires 0 <= i < |v| => b * v[i])
  }

  lemma {:induction false} SumDifference(r: seq<real>, v: seq<real>, w: seq<real>)
    requires |r| == |v| == |w|
    requires forall i :: 0 <= i < |r| ==> r[i] == v[i] - w[i]
    ensures Sum(r) == Sum(v) - Sum(w)
  {
    if r != [] {
      SumDifference(r[1..], v[1..], w[1..]);
    }
  }

  lemma {:induction false} SumScaled(w: seq<real>, v: seq<real>, b: real)
    requires |w| == |v|
    requires forall i :: 0 <= i < |w| ==> w[i] == b * v[i]
    ensures Sum(w) == Product(b, Sum(v))
  {
    if w != [] {
      SumScaled(w[1..], v[1..], b);
    }
  }

  lemma {:induction false} DotDifference(u: seq<real>, r: seq<real>, v: seq<real>, w: seq<real>)
    requires |u| == |r| == |v| == |w|
    requires forall i :: 0 <= i < |r| ==> r[i] == v[i] - w[i]
    ensures Dot(u, r) == Dot(u, v) - Dot(u, w)
  {
    if u != [] {
      DotDifference(u[1..], r[1..], v[1..], w[1..]);
      assert u[0] * r[0] == u[0] * v[0] - u[0] * w[0];
    }
  }

  /** Dot(u, v) with u = cu + m: the centred part plus m times the sum of v. */
  lemma {:induction false} DotShifted(u: seq<real>, cu: seq<real>, v: seq<real>, m: real)
    requires |u| == |cu| == |v|
    requires forall i :: 0 <= i < |u| ==> u[i] == cu[i] + m
    ensures Dot(u, v) == Dot(cu, v) + m * Sum(v)
  {
    if u != [] {
      DotShifted(u[1..], cu[1..], v[1..], m);
    }
  }

  /** Against values that sum to zero, shifting the other side changes no dot product. */
  lemma DotAgainstZeroSum(u: seq<real>, cu: seq<real>, v: seq<real>, m: real)
    requires |u| == |cu| == |v| && Sum(v) == 0.0
    requires forall i :: 0 <= i < |u| ==> u[i] == cu[i] + m
    ensures Dot(u, v) == Dot(cu, v)
  {
    DotShifted(u, cu, v, m);
  }

  /** Centred values sum to zero. */
  lemma CenteredSumZero(xs: seq<real>)
    requires |xs| > 0
    ensures Sum(Centered(xs)) == 0.0
  {
    var n, m := |xs| as real, Mean(xs);
    SumAffine(xs, Centered(xs), -m, 1.0);
    assert Sum(xs) == m * n;
  }

  /** A cross moment with a spread of zero is zero, by Cauchy–Schwarz. */
  lemma NoSpreadNoCross(a: seq<real>, b: seq<real>)
    requires |a| == |b| && Dot(a, a) == 0.0
    ensures Dot(a, b) == 0.0
  {
    CauchySchwarz(a, b);
    assert Product(Dot(a, a), Dot(b, b)) == 0.0;
    if Dot(a, b) != 0.0 {
      SquarePositive(Dot(a, b));
    }
  }

  /** The intercept ȳ − b·x̄ that puts the line of slope b through the means. */
  function Intercept(ys: seq<real>, b: real): real
    requires |ys| > 0
  {
    Mean(ys) - b * Mean(Positions(|ys|))
  }

  /** The normal equations of the line c + b·i: residuals summing to zero and orthogonal to the positions. */
  predicate SolvesNormalEquations(ys: seq<real>, c: real, b: real)
  {
    Sum(Residuals(ys, c, b)) == 0.0 && Dot(Positions(|ys|), Residuals(ys, c, b)) == 0.0
  }

  /**
   * `np.polyfit(x, y, 1)` solves the least-squares normal equations: with
   * the intercept c = ȳ − b·x̄, the residuals of the line c + b·i sum to
   * zero and are orthogonal to the positions. For two or more positions
   * these equations have exactly one solution, so this characterises the
   * slope independently of its Sxy/Sxx formula.
   */
  lemma SlopeSolvesNormalEquations(ys: seq<real>)
    requires |ys| > 0
    ensures SolvesNormalEquations(ys, Intercept(ys, Slope(ys)), Slope(ys))
  {
    SlopeBalancesMoments(ys);
    BalancedLineFits(ys, Slope(ys));
  }

  /** Any slope b with b·Sxx = Sxy, taken with the intercept ȳ − b·x̄, satisfies the normal equations. */
  lemma BalancedLineFits(ys: seq<real>, b: real)
    requires |ys| > 0 && Product(b, Sxx(|ys|)) == Sxy(ys)
    ensures SolvesNormalEquations(ys, Intercept(ys, b), b)
  {
    var c := Intercept(ys, b);
    LineResidualSum(ys, c, b, 0.0);
    LineResidualCross(ys, c, b);
  }

  /**
   * Uniqueness of the fit: over two or more positions, a line c + b·i whose
   * residuals satisfy the normal equations has the slope `Slope` computes.
   */
  lemma NormalEquationsDetermineSlope(ys: seq<real>, c: real, b: real)
    requires |ys| >= 2
    requires SolvesNormalEquations(ys, c, b)
    ensures b == Slope(ys)
  {
    var n := |ys|;
    var d := Mean(ys) - c - b * Mean(Positions(n));
    LineResidualSum(ys, c, b, d);
    ProductZero(n as real, d);
    LineResidualCross(ys, c, b);
    PositionsSpread(n);
    QuotientOfMultiple(b, Sxx(n));
  }

  /**
   * The residuals of the line c + b·i sum to n·d, where d = ȳ − c − b·x̄ is
   * the line's offset from the means.
   */
  lemma LineResidualSum(ys: seq<real>, c: real, b: real, d: real)
    requires |ys| > 0 && d == Mean(ys) - c - b * Mean(Positions(|ys|))
    ensures Sum(Residuals(ys, c, b)) == Product(|ys| as real, d)
  {
    var xs := Positions(|ys|);
    ResidualsCentered(ys, c, b);
    CenteredSumZero(xs);
    CenteredSumZero(ys);
    ResidualMoments(xs, Centered(xs), Centered(ys), Residuals(ys, c, b), b, d, Mean(xs));
  }

  /** For a line through the means, the residuals' cross moment with the positions is Sxy − b·Sxx. */
  lemma LineResidualCross(ys: seq<real>, c: real, b: real)
    requires |ys| > 0 && Mean(ys) - c - b * Mean(Positions(|ys|)) == 0.0
    ensures Dot(Positions(|ys|), Residuals(ys, c, b)) == Sxy(ys) - Product(b, Sxx(|ys|))
  {
    var xs := Positions(|ys|);
    ResidualsCentered(ys, c, b);
    CenteredSumZero(xs);
    CenteredSumZero(ys);
    ResidualMoments(xs, Centered(xs), Centered(ys), Residuals(ys, c, b), b, 0.0, Mean(xs));
  }

  /**
   * Residuals r = (cy + d) − b·cx of centred values cy, cx (both summing to
   * zero) sum to n·d; when d = 0 their cross moment with xs = cx + mx is
   * Dot(cx, cy) − b·Dot(cx, cx).
   */
  lemma ResidualMoments(xs: seq<real>, cx: seq<real>, cy: seq<real>, r: seq<real>, b: real, d: real, mx: real)
    requires |xs| == |cx| == |cy| == |r|
    requires forall i :: 0 <= i < |r| ==> r[i] == (cy[i] + d) - b * cx[i]
    requires forall i :: 0 <= i < |xs| ==> xs[i] == cx[i] + mx
    requires Sum(cx) == 0.0 && Sum(cy) == 0.0
    ensures Sum(r) == Product(|r| as real, d)
    ensures d == 0.0 ==> Dot(xs, r) == Dot(cx, cy) - Product(b, Dot(cx, cx))
  {
    var bcx := Scaled(cx, b);
    SumScaled(bcx, cx, b);
    ResidualSum(cy, bcx, r, d);
    if d == 0.0 {
      DotScaled(xs, cx, bcx, b);
      ResidualCross(xs, cx, cy, bcx, r, b, mx);
    }
  }

  /** Residuals r = (cy + d) − w sum to Sum(cy) − Sum(w) + n·d. */
  lemma {:induction false} ResidualSum(cy: seq<real>, w: seq<real>, r: seq<real>, d: real)
    requires |cy| == |w| == |r|
    requires forall i :: 0 <= i < |r| ==> r[i] == (cy[i] + d) - w[i]
    ensures Sum(r) == Sum(cy) - Sum(w) + Product(|r| as real, d)
  {
    if r != [] {
      ResidualSum(cy[1..], w[1..], r[1..], d);
      assert Product(|r| as real, d) == Product((|r| - 1) as real, d) + d;
    }
  }

  /** With r = cy − w and w = b·cx, the residuals' cross moment with the positions is Sxy − b·Sxx. */
  lemma ResidualCross(xs: seq<real>, cx: seq<real>, cy: seq<real>, w: seq<real>, r: seq<real>, b: real, mx: real)
    requires |xs| == |cx| == |cy| == |w| == |r|
    requires forall i :: 0 <= i < |r| ==> r[i] == cy[i] - w[i]
    requires forall i :: 0 <= i < |xs| ==> xs[i] == cx[i] + mx
    requires Sum(cy) == 0.0 && Sum(cx) == 0.0
    requires Dot(xs, w) == Product(b, Dot(xs, cx))
    ensures Dot(xs, r) == Dot(cx, cy) - Product(b, Dot(cx, cx))
  {
    DotAgainstZeroSum(xs, cx, cy, mx);
    DotAgainstZeroSum(xs, cx, cx, mx);
    DotDifference(xs, r, cy, w);
  }

  /** Against the line c + b·i, a residual is the centred value plus the offset d = ȳ − c − b·x̄, minus b times the centred position. */
  lemma ResidualsCentered(ys: seq<real>, c: real, b: real)
    requires |ys| > 0
    ensures var xs := Positions(|ys|);
      var r := Residuals(ys, c, b);
      var d := Mean(ys) - c - b * Mean(xs);
      forall i :: 0 <= i < |ys| ==> r[i] == (Centered(ys)[i] + d) - b * Centered(xs)[i]
  {
    var xs := Positions(|ys|);
    var mx, my := Mean(xs), Mean(ys);
    forall i | 0 <= i < |ys|
      ensures ys[i] - (c + b * i as real) == ((ys[i] - my) + (my - c - b * mx)) - b * (xs[i] - mx)
    {
      assert b * (i as real - mx) == b * i as real - b * mx;
    }
  }

  /** Slope · Sxx = Sxy, also when there is a single position and both moments are zero. */
  lemma SlopeBalancesMoments(ys: seq<real>)
    requires |ys| > 0
    ensures Product(Slope(ys), Sxx(|ys|)) == Sxy(ys)
  {
    if Sxx(|ys|) == 0.0 {
      NoSpreadNoCross(Centered(Positions(|ys|)), Centered(ys));
    } else {
      QuotientTimesDivisor(Sxy(ys), Sxx(|ys|));
    }
  }

  // ---------------------------------------------------------------------
  // What calculate_trend promises
  // ---------------------------------------------------------------------

  /**
   * The trend's slope is the least-squares fit of the window: it solves the
   * normal equations, and over two or more values no other slope does.
   */
  lemma TrendIsLeastSquaresFit(ndvis: seq<real>, window: nat, c: real, b: real)
    requires window >= 2 && |ndvis| >= window
    ensures var recent := ndvis[|ndvis| - window..];
      var t := CalculateTrend(ndvis, window);
      SolvesNormalEquations(recent, Intercept(recent, t.slope), t.slope) &&
      (SolvesNormalEquations(recent, c, b) ==> b == t.slope)
  {
    var recent := ndvis[|ndvis| - window..];
    SlopeSolvesNormalEquations(recent);
    if SolvesNormalEquations(recent, c, b) {
      NormalEquationsDetermineSlope(recent, c, b);
    }
  }

  /** Values older than the window never influence the trend. */
  lemma OnlyTheWindowMatters(older: seq<real>, ndvis: seq<real>, window: nat)
    requires window >= 1 && |ndvis| >= window
    ensures CalculateTrend(older + ndvis, window) == CalculateTrend(ndvis, window)
  {
    var all := older + ndvis;
    assert all[|all| - window..] == ndvis[|ndvis| - window..];
  }

  /** Adding a constant to every value changes neither slope, direction nor confidence. */
  lemma TrendShiftInvariant(ndvis: seq<real>, shifted: seq<real>, c: real, window: nat)
    requires window >= 1 && |shifted| == |ndvis|
    requires forall i :: 0 <= i < |ndvis| ==> shifted[i] == ndvis[i] + c
    ensures CalculateTrend(shifted, window) == CalculateTrend(ndvis, window)
  {
    if |ndvis| >= window {
      var k := |ndvis| - window;
      TrendAffine(ndvis[k..], shifted[k..], c, 1.0);
    }
  }

  /**
   * A series falling on a straight line of slope b over the last `window`
   * points (window ≥ 2) gets slope b, the direction b implies and confidence 1
   * (or 0 when b = 0).
   */
  lemma LinearTrend(ndvis: seq<real>, window: nat, a: real, b: real)
    requires window >= 2 && |ndvis| >= window
    requires forall i :: |ndvis| - window <= i < |ndvis| ==> ndvis[i] == a + b * (i - (|ndvis| - window)) as real
    ensures CalculateTrend(ndvis, window) ==
      TrendResult(b, Classify(b), if b != 0.0 then 1.0 else 0.0)
  {
    var k := |ndvis| - window;
    var recent := ndvis[k..];
    forall i | 0 <= i < |recent| ensures recent[i] == a + b * i as real {
      assert recent[i] == ndvis[k + i];
    }
    LinearWindow(recent, a, b);
  }

  /**
   * A fall of exactly 0.03 per observation sits on the edge of the band and
   * is stable, not decreasing: the comparison is strict.
   */
  lemma BandEdgeIsStable()
    ensures CalculateTrend([0.50, 0.47, 0.44], DefaultWindow) == TrendResult(-0.03, Stable, 1.0)
  {
    LinearTrend([0.50, 0.47, 0.44], DefaultWindow, 0.50, -0.03);
  }
}
