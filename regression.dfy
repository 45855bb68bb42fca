/**
 * The slope of an ordinary least-squares line fit, the quantity
 * `LinearRegression().fit(X, y).coef_[0]` computes for one feature, stated
 * exactly over the reals: `Sxy / Sxx` about the means, and 0 when every `x`
 * is the same (the minimum-norm solution).
 */
module Regression {

  function Sum(xs: seq<real>): real {
    if xs == [] then 0.0 else xs[0] + Sum(xs[1..])
  }

  function Mean(xs: seq<real>): real
    requires |xs| > 0
  {
    Sum(xs) / |xs| as real
  }

  /** Every element divided by `p`. */
  function Divided(xs: seq<real>, p: real): seq<real>
    requires p != 0.0
  {
    if xs == [] then [] else [xs[0] / p] + Divided(xs[1..], p)
  }

  /** Dividing every term by `p` divides the sum by `p`. */
  lemma {:induction false} SumOfDivided(xs: seq<real>, p: real)
    requires p != 0.0
    ensures Sum(Divided(xs, p)) == Sum(xs) / p
  {
    if xs != [] {
      SumOfDivided(xs[1..], p);
      var ds := Divided(xs, p);
      assert ds[0] == xs[0] / p && ds[1..] == Divided(xs[1..], p);
      calc {
        Sum(ds);
        == xs[0] / p + Sum(xs[1..]) / p;
        == (xs[0] + Sum(xs[1..])) / p;
      }
    }
  }

  function Sq(a: real): real { a * a }

  /** The line `y = a + b * x`. */
  function Line(a: real, b: real, x: real): real { a + b * x }

  /** Each element's deviation from `m`. */
  function Deviations(xs: seq<real>, m: real): (ds: seq<real>)
    ensures |ds| == |xs|
    ensures forall i :: 0 <= i < |xs| ==> ds[i] == xs[i] - m
  {
    seq(|xs|, i requires 0 <= i < |xs| => xs[i] - m)
  }

  function SumOfSquares(ds: seq<real>): real {
    if ds == [] then 0.0 else Sq(ds[0]) + SumOfSquares(ds[1..])
  }

  function SumOfProducts(ds: seq<real>, es: seq<real>): real
    requires |ds| == |es|
  {
    if ds == [] then 0.0 else ds[0] * es[0] + SumOfProducts(ds[1..], es[1..])
  }

  /** The sum of squared deviations of `xs` from `m`. */
  function Sxx(xs: seq<real>, m: real): real {
    SumOfSquares(Deviations(xs, m))
  }

  /** The sum of the products of the deviations of `xs` from `mx` and of `ys` from `my`. */
  function Sxy(xs: seq<real>, ys: seq<real>, mx: real, my: real): real
    requires |xs| == |ys|
  {
    SumOfProducts(Deviations(xs, mx), Deviations(ys, my))
  }

  /**
   * `LinearRegression().fit(X, y).coef_[0]`: the slope that solves the
   * normal equation `slope * Sxx == Sxy`, or 0 when every `x` is the same.
   */
  function Slope(xs: seq<real>, ys: seq<real>): (s: real)
    requires |xs| == |ys| && |xs| > 0
    ensures Sxx(xs, Mean(xs)) != 0.0 ==> s * Sxx(xs, Mean(xs)) == Sxy(xs, ys, Mean(xs), Mean(ys))
    ensures Sxx(xs, Mean(xs)) == 0.0 ==> s == 0.0
  {
    var mx := Mean(xs);
    var my := Mean(ys);
    var d := Sxx(xs, mx);
    if d == 0.0 then 0.0 else DivTimes(Sxy(xs, ys, mx, my), d); Sxy(xs, ys, mx, my) / d
  }

  lemma DivTimes(a: real, d: real)
    requires d != 0.0
    ensures (a / d) * d == a
  {
  }

  lemma SquareNonNegative(a: real)
    ensures Sq(a) >= 0.0
  {
    calc { Sq(a); == a * a; >= 0.0; }
  }

  lemma SquarePositive(a: real)
    requires a != 0.0
    ensures Sq(a) > 0.0
  {
    calc { Sq(a); == a * a; > 0.0; }
  }

  /** Each square is a lower bound for the sum of squares. */
  lemma {:induction false} SumOfSquaresAtLeast(ds: seq<real>, k: nat)
    requires k < |ds|
    ensures SumOfSquares(ds) >= Sq(ds[k])
  {
    SquareNonNegative(ds[0]);
    if k == 0 {
      SumOfSquaresNonNegative(ds[1..]);
    } else {
      SumOfSquaresAtLeast(ds[1..], k - 1);
    }
  }

  lemma {:induction false} SumOfSquaresNonNegative(ds: seq<real>)
    ensures SumOfSquares(ds) >= 0.0
  {
    if ds != [] {
      SquareNonNegative(ds[0]);
      SumOfSquaresNonNegative(ds[1..]);
    }
  }

  /** Two different `x` values make the fit's denominator positive. */
  lemma SxxPositive(xs: seq<real>, m: real, i: nat, j: nat)
    requires i < |xs| && j < |xs| && xs[i] != xs[j]
    ensures Sxx(xs, m) > 0.0
  {
    var k := if xs[i] != m then i else j;
    SumOfSquaresAtLeast(Deviations(xs, m), k);
    SquarePositive(xs[k] - m);
  }

  /** The sum of a transformed sequence `a + b * x`. */
  lemma {:induction false} SumOfLine(xs: seq<real>, ys: seq<real>, a: real, b: real)
    requires |xs| == |ys|
    requires forall i :: 0 <= i < |xs| ==> ys[i] == Line(a, b, xs[i])
    ensures Sum(ys) == |xs| as real * a + b * Sum(xs)
  {
    if xs != [] {
      SumOfLine(xs[1..], ys[1..], a, b);
      forall i | 0 <= i < |xs| - 1 ensures ys[1..][i] == Line(a, b, xs[1..][i]) {
        assert ys[1..][i] == ys[i + 1] && xs[1..][i] == xs[i + 1];
      }
      assert Sum(ys) == a + b * xs[0] + ((|xs| - 1) as real * a + b * Sum(xs[1..]));
    }
  }

  lemma MeanOfLine(xs: seq<real>, ys: seq<real>, a: real, b: real)
    requires |xs| == |ys| && |xs| > 0
    requires forall i :: 0 <= i < |xs| ==> ys[i] == Line(a, b, xs[i])
    ensures Mean(ys) == a + b * Mean(xs)
  {
    SumOfLine(xs, ys, a, b);
    var n := |xs| as real;
    assert Sum(ys) / n == (n * a + b * Sum(xs)) / n;
  }

  /** When every `es[i]` is `b * ds[i]`, the sum of products is `b` times the sum of squares. */
  lemma {:induction false} ProductsOfScaled(ds: seq<real>, es: seq<real>, b: real)
    requires |ds| == |es|
    requires forall i :: 0 <= i < |ds| ==> es[i] == b * ds[i]
    ensures SumOfProducts(ds, es) == b * SumOfSquares(ds)
  {
    if ds != [] {
      var dt, et := ds[1..], es[1..];
      forall i | 0 <= i < |dt| ensures et[i] == b * dt[i] {
        assert et[i] == es[i + 1] && dt[i] == ds[i + 1];
      }
      ProductsOfScaled(dt, et, b);
      ProductsOnLine(ds[0], es[0], b, SumOfProducts(dt, et), SumOfSquares(dt),
        SumOfProducts(ds, es), SumOfSquares(ds));
    }
  }

  lemma SxyOfLine(xs: seq<real>, ys: seq<real>, mx: real, my: real, b: real)
    requires |xs| == |ys|
    requires forall i :: 0 <= i < |xs| ==> ys[i] - my == b * (xs[i] - mx)
    ensures Sxy(xs, ys, mx, my) == b * Sxx(xs, mx)
  {
    ProductsOfScaled(Deviations(xs, mx), Deviations(ys, my), b);
  }

  /** One more scaled pair keeps the sum of products `b` times the sum of squares. */
  lemma ProductsOnLine(dx: real, dy: real, b: real, sxy: real, sxx: real, cross: real, square: real)
    requires dy == b * dx && sxy == b * sxx
    requires cross == dx * dy + sxy && square == Sq(dx) + sxx
    ensures cross == b * square
  {
    calc {
      cross;
      == dx * (b * dx) + b * sxx;
      == b * (dx * dx) + b * sxx;
      == b * (Sq(dx) + sxx);
    }
  }

  /**
   * Points lying exactly on the line `y = a + b * x`, with at least two
   * different `x`, have slope `b`.
   */
  lemma SlopeOfLine(xs: seq<real>, ys: seq<real>, a: real, b: real, i: nat, j: nat)
    requires |xs| == |ys|
    requires i < |xs| && j < |xs| && xs[i] != xs[j]
    requires forall k :: 0 <= k < |xs| ==> ys[k] == Line(a, b, xs[k])
    ensures Slope(xs, ys) == b
  {
    var mx := Mean(xs);
    MeanOfLine(xs, ys, a, b);
    var my := Mean(ys);
    forall k | 0 <= k < |xs| ensures ys[k] - my == b * (xs[k] - mx) {
      calc {
        ys[k] - my;
        == (a + b * xs[k]) - (a + b * mx);
        == b * xs[k] - b * mx;
        == b * (xs[k] - mx);
      }
    }
    SxyOfLine(xs, ys, mx, my, b);
    SxxPositive(xs, mx, i, j);
    Cancel(b, Sxx(xs, mx));
  }

  lemma Cancel(b: real, d: real)
    requires d != 0.0
    ensures (b * d) / d == b
  {
  }

  /** Equal `y` values give a flat fit, whatever the `x`. */
  lemma SlopeOfConstant(xs: seq<real>, ys: seq<real>, c: real)
    requires |xs| == |ys| && |xs| > 0
    requires forall k :: 0 <= k < |ys| ==> ys[k] == c
    ensures Slope(xs, ys) == 0.0
  {
    if Sxx(xs, Mean(xs)) != 0.0 {
      MeanOfLine(xs, ys, c, 0.0);
      SxyOfLine(xs, ys, Mean(xs), Mean(ys), 0.0);
    }
  }
}
