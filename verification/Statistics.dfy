/** Sums, means and variances of the columns of a stretch of feature rows, in exact arithmetic. */
module Statistics {
  import opened Basics

  function Sum(xs: seq<real>): (s: real) {
    if xs == [] then 0.0 else Sum(xs[..|xs| - 1]) + xs[|xs| - 1]
  }

  lemma {:induction false} SumOfConcatenation(xs: seq<real>, ys: seq<real>)
    ensures Sum(xs + ys) == Sum(xs) + Sum(ys)
  {
    if ys == [] {
      assert xs + ys == xs;
    } else {
      assert (xs + ys)[..|xs + ys| - 1] == xs + ys[..|ys| - 1];
      SumOfConcatenation(xs, ys[..|ys| - 1]);
    }
  }

  function Times(x: real, y: real): (p: real) {
    x * y
  }

  function Squares(xs: seq<real>): (sq: seq<real>) {
    seq(|xs|, i requires 0 <= i < |xs| => Times(xs[i], xs[i]))
  }

  function Mean(xs: seq<real>): (m: real)
    requires xs != []
  {
    Sum(xs) / |xs| as real
  }

  /** The statistic the source computes in one pass: the mean square minus the squared mean. */
  function OnePassVariance(xs: seq<real>): (v: real)
    requires xs != []
  {
    Sum(Squares(xs)) / |xs| as real - Times(Mean(xs), Mean(xs))
  }

  function Deviations(xs: seq<real>, c: real): (ds: seq<real>) {
    seq(|xs|, i requires 0 <= i < |xs| => xs[i] - c)
  }

  /** The mean squared deviation from the mean. */
  function Variance(xs: seq<real>): (v: real)
    requires xs != []
  {
    Sum(Squares(Deviations(xs, Mean(xs)))) / |xs| as real
  }

  lemma {:induction false} SumOfDeviations(xs: seq<real>, c: real)
    ensures Sum(Deviations(xs, c)) == Sum(xs) - |xs| as real * c
  {
    if xs != [] {
      var n := |xs| - 1;
      SumOfDeviations(xs[..n], c);
      assert Deviations(xs, c)[..n] == Deviations(xs[..n], c);
    }
  }

  lemma {:induction false} SumOfSquaredDeviations(xs: seq<real>, c: real)
    ensures Sum(Squares(Deviations(xs, c))) ==
            Sum(Squares(xs)) - 2.0 * Times(c, Sum(xs)) + Times(|xs| as real, Times(c, c))
  {
    if xs == [] {
      assert Times(c, 0.0) == 0.0 && Times(0.0, Times(c, c)) == 0.0;
    } else {
      var n := |xs| - 1;
      SumOfSquaredDeviations(xs[..n], c);
      assert Deviations(xs, c)[..n] == Deviations(xs[..n], c);
      assert Squares(Deviations(xs, c))[..n] == Squares(Deviations(xs[..n], c));
      assert Squares(xs)[..n] == Squares(xs[..n]);
      SquaredDeviation(xs[n], c, Sum(xs[..n]), n);
    }
  }

  lemma SquaredDeviation(x: real, c: real, s: real, n: nat)
    ensures Times(x - c, x - c) == Times(x, x) - 2.0 * Times(c, x) + Times(c, c)
    ensures Times(c, s + x) == Times(c, s) + Times(c, x)
    ensures Times((n + 1) as real, Times(c, c)) == Times(n as real, Times(c, c)) + Times(c, c)
  {
  }

  /** The one-pass statistic is the mean squared deviation. */
  lemma OnePassIsVariance(xs: seq<real>)
    requires xs != []
    ensures OnePassVariance(xs) == Variance(xs)
  {
    SumOfSquaredDeviations(xs, Mean(xs));
    OnePassArithmetic(|xs| as real, Mean(xs), Sum(xs), Sum(Squares(xs)));
  }

  lemma OnePassArithmetic(n: real, m: real, s: real, q: real)
    requires n > 0.0 && m == s / n
    ensures q / n - Times(m, m) == (q - 2.0 * Times(m, s) + Times(n, Times(m, m))) / n
  {
    assert s == n * m;
    assert m * s == n * (m * m) by {
      assert m * (n * m) == n * (m * m);
    }
    assert n * (q / n - m * m) == q - n * (m * m) by {
      assert n * (q / n) == q;
      assert n * (q / n - m * m) == n * (q / n) - n * (m * m);
    }
    QuotientIs(q - n * (m * m), n, q / n - m * m);
  }

  lemma QuotientIs(a: real, n: real, r: real)
    requires n > 0.0 && n * r == a
    ensures a / n == r
  {
  }

  lemma {:induction false} SquaresAreNotNegative(xs: seq<real>)
    ensures Sum(Squares(xs)) >= 0.0
    ensures Sum(Squares(xs)) == 0.0 <==> forall i :: 0 <= i < |xs| ==> xs[i] == 0.0
  {
    if xs != [] {
      var n := |xs| - 1;
      SquaresAreNotNegative(xs[..n]);
      assert Squares(xs)[..n] == Squares(xs[..n]);
      SquareSign(xs[n]);
      assert forall i :: 0 <= i < n ==> xs[..n][i] == xs[i];
    }
  }

  lemma SquareSign(x: real)
    ensures x != 0.0 ==> Times(x, x) > 0.0
    ensures x == 0.0 ==> Times(x, x) == 0.0
  {
    if x > 0.0 {
      PositiveProduct(x, x);
    } else if x < 0.0 {
      NegativeProduct(x, x);
    }
  }

  lemma NegativeProduct(x: real, y: real)
    requires x < 0.0 && y < 0.0
    ensures Times(x, y) > 0.0
  {
  }

  lemma PositiveProduct(x: real, y: real)
    requires x > 0.0 && y > 0.0
    ensures Times(x, y) > 0.0
  {
  }

  /** It is never negative, and zero exactly when all values are the same. */
  lemma VarianceSign(xs: seq<real>)
    requires xs != []
    ensures Variance(xs) >= 0.0
    ensures Variance(xs) == 0.0 <==> forall i :: 0 <= i < |xs| ==> xs[i] == xs[0]
  {
    var ds := Deviations(xs, Mean(xs));
    SquaresAreNotNegative(ds);
    QuotientSign(Sum(Squares(ds)), |xs| as real);
    if forall i :: 0 <= i < |xs| ==> xs[i] == xs[0] {
      SumOfDeviations(xs, xs[0]);
      ZeroSum(Deviations(xs, xs[0]));
      QuotientIs(Sum(xs), |xs| as real, xs[0]);
      assert forall i :: 0 <= i < |ds| ==> ds[i] == 0.0;
    } else {
      var i :| 0 <= i < |xs| && xs[i] != xs[0];
      assert ds[i] != 0.0 || ds[0] != 0.0;
    }
  }

  lemma QuotientSign(a: real, n: real)
    requires a >= 0.0 && n > 0.0
    ensures a / n >= 0.0
    ensures a / n == 0.0 <==> a == 0.0
  {
    var q := a / n;
    assert q * n == a;
  }

  lemma {:induction false} ZeroSum(xs: seq<real>)
    requires forall i :: 0 <= i < |xs| ==> xs[i] == 0.0
    ensures Sum(xs) == 0.0
  {
    if xs != [] {
      ZeroSum(xs[..|xs| - 1]);
    }
  }

  // ----- Normalised values -----

  /** `root` yields positive square roots. */
  ghost predicate IsRoot(root: real -> real) {
    forall v :: v > 0.0 ==> root(v) > 0.0 && root(v) * root(v) == v
  }

  function Scaled(xs: seq<real>, k: real): (ys: seq<real>) {
    seq(|xs|, i requires 0 <= i < |xs| => Times(xs[i], k))
  }

  lemma {:induction false} SumOfScaled(xs: seq<real>, k: real)
    ensures Sum(Scaled(xs, k)) == Sum(xs) * k
  {
    if xs != [] {
      var n := |xs| - 1;
      SumOfScaled(xs[..n], k);
      assert Scaled(xs, k)[..n] == Scaled(xs[..n], k);
    }
  }

  /** Subtracting the mean and dividing by the standard deviation. */
  function Normalised(xs: seq<real>, root: real -> real): (ys: seq<real>)
    requires xs != [] && Variance(xs) > 0.0
  {
    Scaled(Deviations(xs, Mean(xs)), root(1.0 / Variance(xs)))
  }

  /** Normalised values have mean 0 and variance 1. */
  lemma NormalisedMoments(xs: seq<real>, root: real -> real)
    requires xs != [] && Variance(xs) > 0.0 && IsRoot(root)
    ensures Mean(Normalised(xs, root)) == 0.0
    ensures Variance(Normalised(xs, root)) == 1.0
  {
    var ds, k := Deviations(xs, Mean(xs)), root(1.0 / Variance(xs));
    NormalisedSum(xs, k);
    VarianceOfCentred(Scaled(ds, k));
    SumOfScaledSquares(ds, k);
    ReciprocalRoot(Variance(xs), root);
    UnitVariance(|xs| as real, Sum(Squares(ds)), k, Sum(Squares(Scaled(ds, k))));
  }

  lemma ReciprocalRoot(v: real, root: real -> real)
    requires v > 0.0 && IsRoot(root)
    ensures root(1.0 / v) * root(1.0 / v) == 1.0 / v
  {
    assert 1.0 / v > 0.0;
  }

  lemma VarianceOfCentred(ys: seq<real>)
    requires ys != [] && Mean(ys) == 0.0
    ensures Variance(ys) == Sum(Squares(ys)) / |ys| as real
  {
    assert Deviations(ys, 0.0) == ys;
  }

  lemma SumOfScaledSquares(ds: seq<real>, k: real)
    ensures Sum(Squares(Scaled(ds, k))) == Sum(Squares(ds)) * (k * k)
  {
    ScaledSquares(ds, k);
    SumOfScaled(Squares(ds), k * k);
  }

  lemma NormalisedSum(xs: seq<real>, k: real)
    requires xs != []
    ensures Sum(Scaled(Deviations(xs, Mean(xs)), k)) == 0.0
    ensures Mean(Scaled(Deviations(xs, Mean(xs)), k)) == 0.0
  {
    SumOfDeviations(xs, Mean(xs));
    SumOfScaled(Deviations(xs, Mean(xs)), k);
    QuotientIs(0.0, |xs| as real, 0.0);
  }

  lemma ScaledSquares(ds: seq<real>, k: real)
    ensures Squares(Scaled(ds, k)) == Scaled(Squares(ds), k * k)
  {
    forall i | 0 <= i < |ds|
      ensures Times(Times(ds[i], k), Times(ds[i], k)) == Times(Times(ds[i], ds[i]), k * k)
    {
      SquareOfProduct(ds[i], k);
    }
  }

  lemma SquareOfProduct(x: real, k: real)
    ensures Times(Times(x, k), Times(x, k)) == Times(Times(x, x), k * k)
  {
    assert (x * k) * (x * k) == (x * x) * (k * k);
  }

  lemma UnitVariance(n: real, total: real, k: real, scaled: real)
    requires n > 0.0 && total / n > 0.0 && k * k == 1.0 / (total / n) && scaled == total * (k * k)
    ensures scaled / n == 1.0
  {
    var v := total / n;
    assert total == v * n;
    CancelFactor(v, n);
    QuotientIs(scaled, n, 1.0);
  }

  lemma CancelFactor(v: real, n: real)
    requires v > 0.0
    ensures (v * n) * (1.0 / v) == n
  {
    assert v * (1.0 / v) == 1.0;
    assert (v * n) * (1.0 / v) == n * (v * (1.0 / v));
  }

  // ----- Columns -----

  function Column(rows: seq<Row>, d: nat): (xs: seq<real>)
    requires forall i :: 0 <= i < |rows| ==> d < |rows[i]|
    ensures |xs| == |rows|
  {
    seq(|rows|, i requires 0 <= i < |rows| => rows[i][d])
  }
}
