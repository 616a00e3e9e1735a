/**
 * The ordinary-least-squares arithmetic of the sampling throttle, stated over
 * `real`. The points are (i, ys[i]) for i = 0 .. |ys| - 1, exactly as
 * `computeOLS` builds them; sums are accumulated from the left, as the
 * source's loops accumulate them.
 */
module Regression {

  /** Sum of ys. */
  function Sum(ys: seq<real>): real
  {
    if |ys| == 0 then 0.0 else Sum(ys[..|ys| - 1]) + ys[|ys| - 1]
  }

  /** Arithmetic mean of a non-empty sequence (`computeAvg`). */
  function Mean(ys: seq<real>): real
    requires |ys| > 0
  {
    Sum(ys) / (|ys| as real)
  }

  /** The x coordinates 0, 1, .., n - 1 that `computeOLS` puts in `xs`. */
  function Indices(n: nat): seq<real>
  {
    seq(n, i => i as real)
  }

  /** Sum over i < k of (i - xa) * (ys[i] - ya): the numerator `num`. */
  function Cross(ys: seq<real>, k: nat, xa: real, ya: real): real
    requires k <= |ys|
  {
    if k == 0 then 0.0
    else Cross(ys, k - 1, xa, ya) + ((k - 1) as real - xa) * (ys[k - 1] - ya)
  }

  /** Sum over i < k of (i - xa)^2: the denominator `den`. */
  function SqDev(k: nat, xa: real): real
  {
    if k == 0 then 0.0
    else SqDev(k - 1, xa) + ((k - 1) as real - xa) * ((k - 1) as real - xa)
  }

  /** Least-squares slope of the points (i, ys[i]). */
  function Slope(ys: seq<real>): real
    requires |ys| >= 2
  {
    var xa := Mean(Indices(|ys|));
    SqDevPositive(|ys|, xa);
    Cross(ys, |ys|, xa, Mean(ys)) / SqDev(|ys|, xa)
  }

  /** Intercept of the line of slope m through the mean point (x̄, ȳ). */
  function InterceptThrough(ys: seq<real>, m: real): real
    requires |ys| >= 1
  {
    Mean(ys) - m * Mean(Indices(|ys|))
  }

  /** Least-squares intercept of the points (i, ys[i]): `b = yavg - m * xavg`. */
  function Intercept(ys: seq<real>): real
    requires |ys| >= 2
  {
    InterceptThrough(ys, Slope(ys))
  }

  /** The value the fitted line y = m x + b predicts at x. */
  function LineAt(m: real, b: real, x: real): real
  {
    m * x + b
  }

  /** Sum over i < k of the residuals ys[i] - (m i + b). */
  function ResidualSum(ys: seq<real>, k: nat, m: real, b: real): real
    requires k <= |ys|
  {
    if k == 0 then 0.0
    else ResidualSum(ys, k - 1, m, b) + (ys[k - 1] - LineAt(m, b, (k - 1) as real))
  }

  /** True when every ys[i] lies on the line y = m x + b. */
  ghost predicate OnLine(ys: seq<real>, m: real, b: real)
  {
    forall i :: 0 <= i < |ys| ==> ys[i] == LineAt(m, b, i as real)
  }

  lemma {:induction false} SumIndices(n: nat)
    ensures Sum(Indices(n)) == ((n * (n - 1)) as real) / 2.0
  {
    if n > 0 {
      assert Indices(n)[..n - 1] == Indices(n - 1);
      SumIndices(n - 1);
      assert (n * (n - 1)) == (n - 1) * (n - 2) + 2 * (n - 1);
    }
  }

  /** The mean x coordinate is (n - 1) / 2. */
  lemma MeanIndices(n: nat)
    requires n > 0
    ensures Mean(Indices(n)) == ((n - 1) as real) / 2.0
  {
    SumIndices(n);
    assert (n * (n - 1)) as real == (n as real) * ((n - 1) as real);
  }

  lemma {:induction false} SqDevMonotone(j: nat, k: nat, xa: real)
    requires j <= k
    ensures SqDev(j, xa) <= SqDev(k, xa)
    decreases k
  {
    if j < k {
      SqDevMonotone(j, k - 1, xa);
      var d := (k - 1) as real - xa;
      assert d * d >= 0.0;
    }
  }

  /**
   * With at least two distinct x coordinates the denominator of the slope
   * is strictly positive, so the fit is defined; with one point it is zero.
   */
  lemma SqDevPositive(n: nat, xa: real)
    requires n >= 2
    ensures SqDev(n, xa) > 0.0
  {
    SqDevMonotone(2, n, xa);
    var d0, d1 := 0.0 - xa, 1.0 - xa;
    assert SqDev(1, xa) == d0 * d0;
    assert SqDev(2, xa) == d0 * d0 + d1 * d1;
    assert d1 * d1 >= 0.0;
    if d0 == 0.0 {
      assert d1 == 1.0;
    } else {
      assert d0 * d0 > 0.0;
    }
  }

  /** With a single point the denominator vanishes: a window of one cannot be fitted. */
  lemma SinglePointDegenerate()
    ensures SqDev(1, Mean(Indices(1))) == 0.0
  {
    assert Indices(1) == [0.0];
    assert Sum([0.0]) == Sum([]) + 0.0;
  }

  lemma {:induction false} SumOnLine(ys: seq<real>, m: real, b: real)
    requires OnLine(ys, m, b)
    ensures Sum(ys) == m * Sum(Indices(|ys|)) + (|ys| as real) * b
    decreases |ys|
  {
    if |ys| > 0 {
      var n := |ys|;
      assert Indices(n)[..n - 1] == Indices(n - 1);
      SumOnLine(ys[..n - 1], m, b);
      assert ys[n - 1] == m * ((n - 1) as real) + b;
    }
  }

  lemma {:induction false} CrossOnLine(ys: seq<real>, k: nat, m: real, b: real, xa: real, ya: real)
    requires k <= |ys|
    requires OnLine(ys, m, b) && ya == m * xa + b
    ensures Cross(ys, k, xa, ya) == m * SqDev(k, xa)
    decreases k
  {
    if k > 0 {
      CrossOnLine(ys, k - 1, m, b, xa, ya);
      assert ys[k - 1] == LineAt(m, b, (k - 1) as real);
      OnLineCentered(ys[k - 1], (k - 1) as real, m, b, ya, xa);
      ScaledStep(m, Cross(ys, k - 1, xa, ya), SqDev(k - 1, xa), (k - 1) as real - xa, ys[k - 1] - ya,
                 Cross(ys, k, xa, ya), SqDev(k, xa));
    }
  }

  lemma ScaledStep(m: real, c0: real, s0: real, d: real, e: real, c1: real, s1: real)
    requires c0 == m * s0 && e == m * d
    requires c1 == c0 + d * e && s1 == s0 + d * d
    ensures c1 == m * s1
  {
    assert d * (m * d) == m * (d * d);
    assert m * (s0 + d * d) == m * s0 + m * (d * d);
  }

  /**
   * Exact recovery of linear data: when every sample lies on y = m x + b
   * the fit returns exactly that slope and intercept.
   */
  lemma LinearFit(ys: seq<real>, m: real, b: real)
    requires |ys| >= 2
    requires OnLine(ys, m, b)
    ensures Slope(ys) == m && Intercept(ys) == b
  {
    MeanOnLine(ys, m, b);
    CrossOnLine(ys, |ys|, m, b, Mean(Indices(|ys|)), Mean(ys));
    FitDefinition(ys);
    SlopeFromCross(Slope(ys), Cross(ys, |ys|, Mean(Indices(|ys|)), Mean(ys)), SqDev(|ys|, Mean(Indices(|ys|))), m);
    assert Intercept(ys) == InterceptThrough(ys, m);
  }

  /** Slope and intercept in terms of the centred sums. */
  lemma FitDefinition(ys: seq<real>)
    requires |ys| >= 2
    ensures SqDev(|ys|, Mean(Indices(|ys|))) > 0.0
    ensures Slope(ys) == Cross(ys, |ys|, Mean(Indices(|ys|)), Mean(ys)) / SqDev(|ys|, Mean(Indices(|ys|)))
  {
    SqDevPositive(|ys|, Mean(Indices(|ys|)));
  }

  lemma MeanOnLine(ys: seq<real>, m: real, b: real)
    requires |ys| >= 1
    requires OnLine(ys, m, b)
    ensures Mean(ys) == m * Mean(Indices(|ys|)) + b
  {
    SumOnLine(ys, m, b);
    MeanTimesCount(ys);
    MeanIndicesTimesCount(|ys|);
    CancelCount(Sum(ys), Sum(Indices(|ys|)), Mean(ys), m, Mean(Indices(|ys|)), b, |ys| as real);
  }

  /** Dividing the sums by the count: the mean point lies on the line. */
  lemma CancelCount(sy: real, sx: real, ya: real, m: real, xa: real, b: real, n: real)
    requires n > 0.0
    requires sy == m * sx + n * b && sy == ya * n && sx == xa * n
    ensures ya == m * xa + b
  {
    assert ya * n == (m * xa + b) * n;
  }

  lemma OnLineCentered(y: real, x: real, m: real, b: real, ya: real, xa: real)
    requires y == m * x + b && ya == m * xa + b
    ensures y - ya == m * (x - xa)
  {
  }

  lemma SlopeFromCross(slope: real, cross: real, sq: real, m: real)
    requires sq != 0.0 && cross == m * sq && slope == cross / sq
    ensures slope == m
  {
  }

  lemma {:induction false} ResidualSumSplit(ys: seq<real>, k: nat, m: real, b: real)
    requires k <= |ys|
    ensures ResidualSum(ys, k, m, b) == Sum(ys[..k]) - m * Sum(Indices(k)) - (k as real) * b
    decreases k
  {
    if k > 0 {
      ResidualSumSplit(ys, k - 1, m, b);
      assert ys[..k][..k - 1] == ys[..k - 1];
      assert Indices(k)[..k - 1] == Indices(k - 1);
      ResidualStep(m, b, ys[k - 1], (k - 1) as real, ((k - 1) as real), k as real,
                   ResidualSum(ys, k - 1, m, b), Sum(ys[..k - 1]), Sum(Indices(k - 1)),
                   ResidualSum(ys, k, m, b), Sum(ys[..k]), Sum(Indices(k)));
    }
  }

  /** One more point: the residual sum keeps its split into Σy - m Σx - n b. */
  lemma ResidualStep(m: real, b: real, y: real, x: real, n0: real, n1: real,
                     r0: real, sy0: real, sx0: real, r1: real, sy1: real, sx1: real)
    requires r0 == sy0 - m * sx0 - n0 * b && n1 == n0 + 1.0
    requires r1 == r0 + (y - LineAt(m, b, x)) && sy1 == sy0 + y && sx1 == sx0 + x
    ensures r1 == sy1 - m * sx1 - n1 * b
  {
    assert m * (sx0 + x) == m * sx0 + m * x;
    assert (n0 + 1.0) * b == n0 * b + b;
  }

  /** The residuals of the fitted line sum to zero (first normal equation). */
  lemma FitResidualsSumToZero(ys: seq<real>)
    requires |ys| >= 2
    ensures ResidualSum(ys, |ys|, Slope(ys), Intercept(ys)) == 0.0
  {
    CentredLineResiduals(ys, Slope(ys));
  }

  /** Any line through the mean point has residuals summing to zero. */
  lemma CentredLineResiduals(ys: seq<real>, m: real)
    requires |ys| >= 1
    ensures ResidualSum(ys, |ys|, m, InterceptThrough(ys, m)) == 0.0
  {
    ResidualSumSplit(ys, |ys|, m, InterceptThrough(ys, m));
    assert ys[..|ys|] == ys;
    MeanTimesCount(ys);
    MeanIndicesTimesCount(|ys|);
    ZeroResidualSum(ResidualSum(ys, |ys|, m, InterceptThrough(ys, m)), Sum(ys), Sum(Indices(|ys|)), |ys| as real,
                    m, InterceptThrough(ys, m), Mean(Indices(|ys|)), Mean(ys));
  }

  lemma MeanTimesCount(ys: seq<real>)
    requires |ys| > 0
    ensures Sum(ys) == Mean(ys) * (|ys| as real)
  {
  }

  lemma MeanIndicesTimesCount(n: nat)
    requires n > 0
    ensures Sum(Indices(n)) == Mean(Indices(n)) * (n as real)
  {
    MeanTimesCount(Indices(n));
  }

  lemma ZeroResidualSum(r: real, sy: real, sx: real, n: real, m: real, b: real, xa: real, ya: real)
    requires r == sy - m * sx - n * b
    requires sy == ya * n && sx == xa * n && b == ya - m * xa
    ensures r == 0.0
  {
    assert n * (ya - m * xa) == n * ya - n * (m * xa);
  }

}
