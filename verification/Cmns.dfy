/** Cepstral mean and variance normalisation over a ring of the most recent feature rows. */
module Cmns {
  import opened Basics
  import opened Windows
  import opened Statistics

  /** A normalised value; a dimension without variance has none (the source divides by zero there). */
  datatype Value = NotFinite | Finite(v: real)

  /** The mean row of a stretch of rows. */
  function MeanRow(rows: seq<Row>, dim: nat): (m: Row)
    requires rows != [] && Uniform(rows, dim)
    ensures |m| == dim
  {
    seq(dim, d requires 0 <= d < dim => Mean(Column(rows, d)))
  }

  function Minus(a: Row, b: Row): (c: Row)
    requires |a| == |b|
  {
    seq(|a|, d requires 0 <= d < |a| => a[d] - b[d])
  }

  function Plus(a: Row, b: Row): (c: Row)
    requires |a| == |b|
  {
    seq(|a|, d requires 0 <= d < |a| => a[d] + b[d])
  }

  /** Subtracting a shifted mean is subtracting the mean exactly when the shift is zero everywhere. */
  lemma ShiftShows(row: Row, mean: Row, shift: Row)
    requires |row| == |mean| == |shift|
    ensures Minus(row, Plus(mean, shift)) == Minus(row, mean) <==> forall d :: 0 <= d < |shift| ==> shift[d] == 0.0
  {
    var shifted, centred := Minus(row, Plus(mean, shift)), Minus(row, mean);
    if shifted == centred {
      forall d | 0 <= d < |shift|
        ensures shift[d] == 0.0
      {
        assert shifted[d] == centred[d];
      }
    }
  }

  lemma SumCommutes(a: seq<real>, b: seq<real>)
    ensures Sum(a + b) == Sum(b + a)
  {
    SumOfConcatenation(a, b);
    SumOfConcatenation(b, a);
  }

  lemma ColumnOfConcatenation(a: seq<Row>, b: seq<Row>, d: nat)
    requires forall i :: 0 <= i < |a + b| ==> d < |(a + b)[i]|
    ensures forall i :: 0 <= i < |a| ==> d < |a[i]|
    ensures forall i :: 0 <= i < |b| ==> d < |b[i]|
    ensures Column(a + b, d) == Column(a, d) + Column(b, d)
    ensures Squares(Column(a + b, d)) == Squares(Column(a, d)) + Squares(Column(b, d))
  {
    assert forall i :: 0 <= i < |a| ==> (a + b)[i] == a[i];
    assert forall i :: 0 <= i < |b| ==> (a + b)[|a| + i] == b[i];
  }

  lemma SumOfRotated(rows: seq<Row>, pos: nat, d: nat)
    requires pos <= |rows| && forall i :: 0 <= i < |rows| ==> d < |rows[i]|
    ensures Sum(Column(Rotated(rows, pos), d)) == Sum(Column(rows, d))
    ensures Sum(Squares(Column(Rotated(rows, pos), d))) == Sum(Squares(Column(rows, d)))
  {
    var a, b := rows[..pos], rows[pos..];
    TakeAndDrop(rows, pos);
    ColumnOfConcatenation(a, b, d);
    ColumnOfConcatenation(b, a, d);
    SumCommutes(Column(a, d), Column(b, d));
    SumCommutes(Squares(Column(a, d)), Squares(Column(b, d)));
  }

  /** The order in which a ring holds its rows does not matter to their statistics. */
  lemma StatisticsOfRotated(rows: seq<Row>, pos: nat, d: nat)
    requires rows != [] && pos <= |rows| && forall i :: 0 <= i < |rows| ==> d < |rows[i]|
    ensures Mean(Column(Rotated(rows, pos), d)) == Mean(Column(rows, d))
    ensures OnePassVariance(Column(Rotated(rows, pos), d)) == OnePassVariance(Column(rows, d))
  {
    SumOfRotated(rows, pos, d);
  }

  /** The mean rolls: leaving out the oldest value and taking a new one in. */
  lemma MeanRolls(xs: seq<real>, x: real)
    requires xs != []
    ensures Mean(xs[1..] + [x]) == Mean(xs) - xs[0] / |xs| as real + x / |xs| as real
  {
    assert xs == [xs[0]] + xs[1..];
    SumOfConcatenation([xs[0]], xs[1..]);
    SumOfConcatenation(xs[1..], [x]);
    assert Sum([xs[0]]) == xs[0] && Sum([x]) == x by {
      assert [xs[0]][..0] == [] && [x][..0] == [];
    }
    QuotientOfSum(Sum(xs), xs[0], x, |xs| as real);
  }

  lemma QuotientOfSum(a: real, b: real, c: real, n: real)
    requires n > 0.0
    ensures (a - b + c) / n == a / n - b / n + c / n
  {
    assert n * (a / n) == a && n * (b / n) == b && n * (c / n) == c;
    assert n * (a / n - b / n + c / n) == n * (a / n) - n * (b / n) + n * (c / n);
    QuotientIs(a - b + c, n, a / n - b / n + c / n);
  }

  // ----- The history ring -----

  /** Where the oldest row stands after `n` rows. */
  function OldestRow(n: nat, hist: nat): (pos: nat)
    requires hist > 0
    ensures pos < hist
  {
    if n <= hist then 0 else (OldestRow(n - 1, hist) + 1) % hist
  }

  lemma LastMoves<T>(s: seq<T>, x: T, n: nat)
    requires 0 < n <= |s|
    ensures Last(s + [x], n) == Last(s, n)[1..] + [x]
  {
  }

  /** The column means of the first `n` rows of the ring. */
  method ColumnMeans(stats: array<Row>, n: nat, dim: nat) returns (means: Row)
    requires 0 < n <= stats.Length && Uniform(stats[..n], dim)
    ensures means == MeanRow(stats[..n], dim)
  {
    ghost var rows := stats[..n];
    var sum: Row := seq(dim, _ => 0.0);
    for r := 0 to n
      invariant |sum| == dim && forall d :: 0 <= d < dim ==> sum[d] == Sum(Column(rows[..r], d))
    {
      ghost var before := sum;
      for d := 0 to dim
        invariant |sum| == dim
        invariant forall e :: 0 <= e < d ==> sum[e] == before[e] + rows[r][e]
        invariant forall e :: d <= e < dim ==> sum[e] == before[e]
      {
        assert rows[r] == stats[r];
        sum := sum[d := sum[d] + stats[r][d]];
      }
      forall d | 0 <= d < dim
        ensures sum[d] == Sum(Column(rows[..r + 1], d))
      {
        assert Column(rows[..r + 1], d)[..r] == Column(rows[..r], d);
      }
    }
    assert rows[..n] == rows;
    means := [];
    for d := 0 to dim
      invariant |means| == d && forall e :: 0 <= e < d ==> means[e] == Mean(Column(rows, e))
    {
      means := means + [sum[d] / n as real];
    }
  }

  class OnlineCmn {
    const dim: nat
    const hist: nat

    const stats: array<Row>
    var featuresCached: nat
    var oldestRow: nat
    /** The running mean, once the ring is full and has been averaged. */
    var norm: Row

    ghost var history: seq<Row>

    constructor (dim: nat, hist: nat)
      requires dim > 0 && hist > 0
      ensures Valid() && history == [] && norm == [] && fresh(stats)
      ensures this.dim == dim && this.hist == hist
    {
      this.dim, this.hist := dim, hist;
      stats := new Row[hist](_ => []);
      featuresCached, oldestRow, norm, history := 0, 0, [], [];
    }

    /** The ring holds the last rows of the history: in order from index 0 while it fills up, and in rotation
        order from `oldestRow` on once it is full. */
    ghost predicate Valid()
      reads this, stats
    {
      && dim > 0 && hist > 0 && stats.Length == hist
      && Uniform(history, dim)
      && featuresCached == (if |history| < hist then |history| else hist)
      && oldestRow == OldestRow(|history|, hist)
      && (|history| < hist ==> stats[..|history|] == history)
      && (|history| >= hist ==> Rotated(stats[..], oldestRow) == Last(history, hist))
      && (norm != [] ==> |norm| == dim && |history| >= hist)
    }

    /** How far the running mean is off the mean of the ring. */
    ghost function Drift(): (drift: Row)
      reads this, stats
      requires Valid()
      ensures |drift| == dim
    {
      if norm == [] then seq(dim, _ => 0.0) else Minus(norm, MeanRow(Last(history, hist), dim))
    }

    /** The running mean is the mean of the ring. */
    ghost predicate NormIsCurrent()
      reads this, stats
      requires Valid()
    {
      forall d :: 0 <= d < dim ==> Drift()[d] == 0.0
    }

    /** The running mean is the mean of the ring and the drift. */
    lemma NormIsMeanAndDrift()
      requires Valid() && norm != []
      ensures Uniform(Last(history, hist), dim) && norm == Plus(MeanRow(Last(history, hist), dim), Drift())
    {
    }

    /** What the ring can tell: the last rows, at most `hist` of them. */
    lemma RingHoldsLast()
      requires Valid()
      ensures Uniform(stats[..featuresCached], dim) && Uniform(Last(history, hist), dim)
      ensures featuresCached == |Last(history, hist)|
      ensures featuresCached > 0 ==> forall d :: 0 <= d < dim ==>
                && Mean(Column(stats[..featuresCached], d)) == Mean(Column(Last(history, hist), d))
                && OnePassVariance(Column(stats[..featuresCached], d))
                    == OnePassVariance(Column(Last(history, hist), d))
    {
      var rows := stats[..featuresCached];
      if |history| < hist {
        assert rows == Last(history, hist);
      } else {
        assert rows == stats[..];
        UniformRotated(rows, oldestRow, dim);
        forall d | 0 <= d < dim
          ensures Mean(Column(rows, d)) == Mean(Column(Last(history, hist), d))
          ensures OnePassVariance(Column(rows, d)) == OnePassVariance(Column(Last(history, hist), d))
        {
          StatisticsOfRotated(rows, oldestRow, d);
        }
      }
    }

    /** Takes a row into a ring that is not full yet. */
    method Cache(row: Row)
      requires Valid() && |row| == dim && featuresCached < hist
      modifies this`featuresCached, this`history, stats
      ensures Valid() && history == old(history) + [row]
    {
      stats[featuresCached] := row;
      featuresCached := featuresCached + 1;
      history := history + [row];
      if |history| == hist {
        assert stats[..] == history;
      }
    }

    /** Takes a row into a full ring, in the place of the oldest one. */
    method Replace(row: Row)
      requires Valid() && |row| == dim && featuresCached == hist
      modifies this`oldestRow, this`history, stats
      ensures Valid() && history == old(history) + [row]
    {
      ghost var ring := stats[..];
      RotatedPush(ring, oldestRow, row);
      LastMoves(history, row, hist);
      stats[oldestRow] := row;
      assert stats[..] == ring[oldestRow := row];
      oldestRow := (oldestRow + 1) % hist;
      history := history + [row];
    }

    /** Subtracts from every row the mean of the rows in the ring, the new ones included, and the drift, which does
        not change.  While the ring fills up the mean is recomputed; once it is full the mean is computed once and
        then rolls along. */
    method ApplyCmvn(feats: seq<Row>) returns (normFeats: seq<Row>)
      requires Valid() && Uniform(feats, dim)
      modifies this, stats
      ensures Valid() && history == old(history) + feats && Drift() == old(Drift())
      ensures norm != [] <==> |history| >= hist
      ensures |normFeats| == |feats|
      ensures feats != [] ==> Uniform(Last(history, hist), dim)
      ensures feats != [] ==> forall j :: 0 <= j < |feats| ==>
                normFeats[j] == Minus(feats[j], Plus(MeanRow(Last(history, hist), dim), Drift()))
    {
      var i := Fill(feats);
      TakeAndDrop(feats, i);
      Associative(old(history), feats[..i], feats[i..]);
      if featuresCached != hist {
        assert feats[..i] == feats;
        normFeats := SubtractMean(feats);
        return;
      }
      if |norm| == 0 {
        AverageRing();
      }
      RollAll(feats, i);
      NormIsMeanAndDrift();
      normFeats := Subtract(feats, norm);
    }

    /** The rows that come out are the rows that went in minus the mean of the ring exactly when the running mean was
        current. */
    lemma CentredWhenCurrent(feats: seq<Row>, normFeats: seq<Row>)
      requires Valid() && Uniform(feats, dim) && feats != [] && |normFeats| == |feats| && |history| > 0
      requires Uniform(Last(history, hist), dim)
      requires forall j :: 0 <= j < |feats| ==>
                 normFeats[j] == Minus(feats[j], Plus(MeanRow(Last(history, hist), dim), Drift()))
      ensures (forall j :: 0 <= j < |feats| ==> normFeats[j] == Minus(feats[j], MeanRow(Last(history, hist), dim)))
              <==> NormIsCurrent()
    {
      forall j | 0 <= j < |feats|
        ensures normFeats[j] == Minus(feats[j], MeanRow(Last(history, hist), dim)) <==> NormIsCurrent()
      {
        ShiftShows(feats[j], MeanRow(Last(history, hist), dim), Drift());
      }
      assert normFeats[0] == Minus(feats[0], MeanRow(Last(history, hist), dim)) <==> NormIsCurrent();
    }

    /** While the ring fills up: the mean is recomputed from the rows there are. */
    method SubtractMean(feats: seq<Row>) returns (normFeats: seq<Row>)
      requires Valid() && Uniform(feats, dim) && featuresCached < hist
      requires feats != [] ==> featuresCached > 0
      ensures |normFeats| == |feats|
      ensures feats != [] ==> Uniform(Last(history, hist), dim)
      ensures feats != [] ==> forall j :: 0 <= j < |feats| ==>
                normFeats[j] == Minus(feats[j], Plus(MeanRow(Last(history, hist), dim), Drift()))
    {
      if featuresCached == 0 {
        return [];
      }
      MeanRowsAgree();
      var mean := ColumnMeans(stats, featuresCached, dim);
      normFeats := Subtract(feats, mean);
      assert Plus(mean, Drift()) == mean;
    }

    /** The ring has just been filled: its mean becomes the running mean. */
    method AverageRing()
      requires Valid() && featuresCached == hist && norm == []
      modifies this`norm
      ensures Valid() && norm != [] && Drift() == old(Drift())
    {
      MeanRowsAgree();
      norm := ColumnMeans(stats, hist, dim);
    }

    /** The mean row of the ring is the mean row of the last rows. */
    lemma MeanRowsAgree()
      requires Valid() && featuresCached > 0
      ensures Uniform(stats[..featuresCached], dim) && Uniform(Last(history, hist), dim)
      ensures MeanRow(stats[..featuresCached], dim) == MeanRow(Last(history, hist), dim)
    {
      RingHoldsLast();
    }

    /** Rolls on over the rows from `first` on. */
    method RollAll(feats: seq<Row>, first: nat)
      requires Valid() && norm != [] && Uniform(feats, dim) && first <= |feats|
      modifies this`norm, this`oldestRow, this`history, stats
      ensures Valid() && norm != [] && history == old(history) + feats[first..] && Drift() == old(Drift())
    {
      var i := first;
      while i < |feats|
        invariant first <= i <= |feats| && Valid() && history == old(history) + feats[first..i]
        invariant norm != [] && Drift() == old(Drift())
      {
        Roll(feats[i]);
        SliceOneMore(feats, first, i);
        Associative(old(history), feats[first..i], [feats[i]]);
        i := i + 1;
      }
      assert feats[first..i] == feats[first..];
    }

    /** Takes rows in until the ring is full or the rows are used up. */
    method Fill(feats: seq<Row>) returns (i: nat)
      requires Valid() && Uniform(feats, dim)
      modifies this`featuresCached, this`history, stats
      ensures Valid() && i <= |feats| && history == old(history) + feats[..i]
      ensures featuresCached < hist ==> i == |feats|
      ensures old(featuresCached) == hist ==> i == 0 && history == old(history)
    {
      i := 0;
      while featuresCached < hist
        invariant Valid() && i <= |feats| && history == old(history) + feats[..i]
        invariant old(featuresCached) == hist ==> i == 0 && featuresCached == hist
        decreases hist - featuresCached
      {
        if i < |feats| {
          Cache(feats[i]);
          assert feats[..i + 1] == feats[..i] + [feats[i]];
          i := i + 1;
        } else {
          break;
        }
      }
    }

    /** Moves the running mean and the ring on by one row; what the running mean is off stays the same. */
    method Roll(row: Row)
      requires Valid() && |row| == dim && norm != []
      modifies this`norm, this`oldestRow, this`history, stats
      ensures Valid() && norm != [] && history == old(history) + [row] && Drift() == old(Drift())
    {
      ghost var last, mean0 := Last(history, hist), norm;
      assert stats[oldestRow] == last[0];
      MeanRowRolls(last, row, dim);
      LastMoves(history, row, hist);
      norm := RollMean(norm, stats[oldestRow], row, hist);
      Replace(row);
      DriftStays(mean0, MeanRow(last, dim), norm, MeanRow(last[1..] + [row], dim), last[0], row, hist);
    }

    /** Takes the rows in, and normalises every one of them to mean 0 and variance 1 by the statistics of the
        rows in the ring, the new ones included.  A dimension that is constant over the ring has no normalised
        value. */
    method ApplyCmvn2(feats: seq<Row>, root: real -> real) returns (normFeats: seq<seq<Value>>)
      requires Valid() && Uniform(feats, dim)
      modifies this`featuresCached, this`oldestRow, this`history, stats
      ensures Valid() && history == old(history) + feats
      ensures |normFeats| == |feats|
      ensures feats != [] ==> Last(history, hist) != [] && Uniform(Last(history, hist), dim)
      ensures feats != [] ==> forall j :: 0 <= j < |feats| ==>
                normFeats[j] == NormalisedRow(feats[j], Last(history, hist), dim, root)
    {
      TakeIn(feats);
      if featuresCached == 0 {
        return [];
      }
      RingHoldsLast();
      normFeats := Normalise(stats, featuresCached, dim, feats, root);
      NormalisedRowsAgree(stats[..featuresCached], Last(history, hist), dim, root);
    }

    method TakeIn(feats: seq<Row>)
      requires Valid() && Uniform(feats, dim)
      modifies this`featuresCached, this`oldestRow, this`history, stats
      ensures Valid() && history == old(history) + feats
    {
      var i := Fill(feats);
      TakeAndDrop(feats, i);
      Associative(old(history), feats[..i], feats[i..]);
      ReplaceAll(feats, i);
    }

    method ReplaceAll(feats: seq<Row>, first: nat)
      requires Valid() && Uniform(feats, dim) && first <= |feats|
      requires first < |feats| ==> featuresCached == hist
      modifies this`oldestRow, this`history, stats
      ensures Valid() && history == old(history) + feats[first..]
    {
      var i := first;
      while i < |feats|
        invariant first <= i <= |feats| && Valid() && history == old(history) + feats[first..i]
        invariant i < |feats| ==> featuresCached == hist
      {
        Replace(feats[i]);
        SliceOneMore(feats, first, i);
        Associative(old(history), feats[first..i], [feats[i]]);
        i := i + 1;
      }
      assert feats[first..i] == feats[first..];
    }
  }

  lemma MeanOfOne(row: Row)
    requires |row| == 1
    ensures MeanRow([row], 1) == row
  {
    var xs := Column([row], 0);
    assert xs == [row[0]] && xs[..0] == [];
    assert Sum(xs) == row[0];
    assert MeanRow([row], 1) == [Mean(xs)];
  }

  /** Taking rows in without rolling the running mean along leaves it stale. */
  method MixedCalls(root: real -> real) returns (cmn: OnlineCmn)
    ensures cmn.Valid() && !cmn.NormIsCurrent()
  {
    cmn := new OnlineCmn(1, 1);
    var _ := cmn.ApplyCmvn([[1.0]]);
    MeanOfOne([1.0]);
    assert Last(cmn.history, 1) == [[1.0]];
    cmn.NormIsMeanAndDrift();
    assert cmn.norm == [1.0];
    var _ := cmn.ApplyCmvn2([[3.0]], root);
    MeanOfOne([3.0]);
    assert Last(cmn.history, 1) == [[3.0]];
    assert cmn.Drift()[0] == 1.0 - 3.0;
  }

  /** The ring is determined by the rows it has seen: batch boundaries leave no trace. */
  lemma RingForgetsBatches(a: OnlineCmn, b: OnlineCmn)
    requires a.Valid() && b.Valid() && a.hist == b.hist && a.history == b.history
    ensures a.featuresCached == b.featuresCached && a.oldestRow == b.oldestRow
    ensures a.stats[..a.featuresCached] == b.stats[..b.featuresCached]
  {
    if |a.history| >= a.hist {
      RotatedIsInjective(a.stats[..], b.stats[..], a.oldestRow);
    }
  }

  lemma RotatedIsInjective<T>(a: seq<T>, b: seq<T>, pos: nat)
    requires |a| == |b| && pos <= |a| && Rotated(a, pos) == Rotated(b, pos)
    ensures a == b
  {
    var n := |a|;
    assert a[pos..] == Rotated(a, pos)[..n - pos] && b[pos..] == Rotated(b, pos)[..n - pos];
    assert a[..pos] == Rotated(a, pos)[n - pos..] && b[..pos] == Rotated(b, pos)[n - pos..];
    assert a == a[..pos] + a[pos..] && b == b[..pos] + b[pos..];
  }

  method RollMean(mean: Row, oldest: Row, row: Row, hist: nat) returns (rolled: Row)
    requires |mean| == |oldest| == |row| && hist > 0
    ensures |rolled| == |mean|
    ensures forall d :: 0 <= d < |mean| ==> rolled[d] == mean[d] - oldest[d] / hist as real + row[d] / hist as real
  {
    rolled := mean;
    for d := 0 to |mean|
      invariant |rolled| == |mean|
      invariant forall e :: 0 <= e < d ==> rolled[e] == mean[e] - oldest[e] / hist as real + row[e] / hist as real
      invariant forall e :: d <= e < |mean| ==> rolled[e] == mean[e]
    {
      rolled := rolled[d := rolled[d] - oldest[d] / hist as real + row[d] / hist as real];
    }
  }

  // ----- Mean and variance -----

  /** A value normalised by the statistics of a column. */
  function NormalisedValue(x: real, xs: seq<real>, root: real -> real): (v: Value)
    requires xs != []
  {
    if Variance(xs) == 0.0 then NotFinite else Finite(Times(x - Mean(xs), root(1.0 / Variance(xs))))
  }

  function NormalisedRow(row: Row, rows: seq<Row>, dim: nat, root: real -> real): (values: seq<Value>)
    requires rows != [] && Uniform(rows, dim) && |row| == dim
  {
    seq(dim, d requires 0 <= d < dim => NormalisedValue(row[d], Column(rows, d), root))
  }

  /** Rows less their mean row have mean 0 in every dimension. */
  lemma CentredRows(rows: seq<Row>, dim: nat, d: nat)
    requires rows != [] && Uniform(rows, dim) && d < dim
    ensures var centred := seq(|rows|, i requires 0 <= i < |rows| => Minus(rows[i], MeanRow(rows, dim)));
            Uniform(centred, dim) && Sum(Column(centred, d)) == 0.0
  {
    var centred := seq(|rows|, i requires 0 <= i < |rows| => Minus(rows[i], MeanRow(rows, dim)));
    var xs := Column(rows, d);
    assert Column(centred, d) == Deviations(xs, Mean(xs));
    SumOfDeviations(xs, Mean(xs));
  }

  /** A value is missing exactly in a dimension that is constant over the ring; and the ring's own rows,
      normalised, have mean 0 and variance 1 in every other dimension. */
  lemma NormalisationIsExact(rows: seq<Row>, dim: nat, d: nat, root: real -> real)
    requires rows != [] && Uniform(rows, dim) && d < dim && IsRoot(root)
    ensures forall i :: 0 <= i < |rows| ==>
              (NormalisedRow(rows[i], rows, dim, root)[d].NotFinite? <==>
               forall k :: 0 <= k < |rows| ==> rows[k][d] == rows[0][d])
    ensures Variance(Column(rows, d)) > 0.0 ==>
              var ys := Normalised(Column(rows, d), root);
              && (forall i :: 0 <= i < |rows| ==> NormalisedRow(rows[i], rows, dim, root)[d] == Finite(ys[i]))
              && Mean(ys) == 0.0 && Variance(ys) == 1.0
  {
    var xs := Column(rows, d);
    VarianceSign(xs);
    assert forall k :: 0 <= k < |rows| ==> xs[k] == rows[k][d];
    if Variance(xs) > 0.0 {
      NormalisedMoments(xs, root);
    }
  }

  /** Rows whose columns have the same mean and variance normalise alike. */
  lemma NormalisedRowsAgree(rows: seq<Row>, rows': seq<Row>, dim: nat, root: real -> real)
    requires rows != [] && rows' != [] && Uniform(rows, dim) && Uniform(rows', dim)
    requires forall d :: 0 <= d < dim ==>
               && Mean(Column(rows, d)) == Mean(Column(rows', d))
               && OnePassVariance(Column(rows, d)) == OnePassVariance(Column(rows', d))
    ensures forall row: Row :: |row| == dim ==>
              NormalisedRow(row, rows, dim, root) == NormalisedRow(row, rows', dim, root)
  {
    forall d | 0 <= d < dim
      ensures Variance(Column(rows, d)) == Variance(Column(rows', d))
    {
      OnePassIsVariance(Column(rows, d));
      OnePassIsVariance(Column(rows', d));
    }
  }

  lemma MomentsOneMore(rows: seq<Row>, r: nat, dim: nat, d: nat)
    requires Uniform(rows, dim) && r < |rows| && d < dim
    ensures Sum(Column(rows[..r + 1], d)) == Sum(Column(rows[..r], d)) + rows[r][d]
    ensures Sum(Squares(Column(rows[..r + 1], d)))
            == Sum(Squares(Column(rows[..r], d))) + Times(rows[r][d], rows[r][d])
  {
    assert Column(rows[..r + 1], d)[..r] == Column(rows[..r], d);
    assert Squares(Column(rows[..r + 1], d))[..r] == Squares(Column(rows[..r], d));
  }

  /** `m` and `sq` are the column sums and the column sums of squares of the rows. */
  ghost predicate AreMoments(rows: seq<Row>, dim: nat, m: Row, sq: Row)
    requires Uniform(rows, dim)
  {
    && |m| == |sq| == dim
    && forall d :: 0 <= d < dim ==> m[d] == Sum(Column(rows, d)) && sq[d] == Sum(Squares(Column(rows, d)))
  }

  function SquareRow(row: Row): (squared: Row) {
    seq(|row|, d requires 0 <= d < |row| => Times(row[d], row[d]))
  }

  lemma MomentsGrow(rows: seq<Row>, r: nat, dim: nat, m: Row, sq: Row)
    requires Uniform(rows, dim) && r < |rows| && AreMoments(rows[..r], dim, m, sq)
    ensures AreMoments(rows[..r + 1], dim, Plus(m, rows[r]), Plus(sq, SquareRow(rows[r])))
  {
    forall d | 0 <= d < dim
      ensures Plus(m, rows[r])[d] == Sum(Column(rows[..r + 1], d))
      ensures Plus(sq, SquareRow(rows[r]))[d] == Sum(Squares(Column(rows[..r + 1], d)))
    {
      MomentsOneMore(rows, r, dim, d);
    }
  }

  /** The column sums and sums of squares of the first `n` rows of the ring. */
  method ColumnMoments(stats: array<Row>, n: nat, dim: nat) returns (m: Row, sq: Row)
    requires 0 < n <= stats.Length && Uniform(stats[..n], dim)
    ensures AreMoments(stats[..n], dim, m, sq)
  {
    ghost var rows := stats[..n];
    m, sq := seq(dim, _ => 0.0), seq(dim, _ => 0.0);
    for r := 0 to n
      invariant AreMoments(rows[..r], dim, m, sq)
    {
      var feature := stats[r];
      assert feature == rows[r];
      MomentsGrow(rows, r, dim, m, sq);
      m, sq := Plus(m, feature), Plus(sq, SquareRow(feature));
    }
    assert rows[..n] == rows;
  }

  /** Normalises rows by the one-pass statistics of the first `n` rows of the ring. */
  method Normalise(stats: array<Row>, n: nat, dim: nat, feats: seq<Row>, root: real -> real)
    returns (normFeats: seq<seq<Value>>)
    requires 0 < n <= stats.Length && Uniform(stats[..n], dim) && Uniform(feats, dim)
    ensures |normFeats| == |feats|
    ensures forall j :: 0 <= j < |feats| ==> normFeats[j] == NormalisedRow(feats[j], stats[..n], dim, root)
  {
    ghost var rows := stats[..n];
    var m, sq := ColumnMoments(stats, n, dim);
    var mean: Row, var0: Row := [], [];
    for d := 0 to dim
      invariant |mean| == |var0| == d
      invariant forall e :: 0 <= e < d ==> mean[e] == Mean(Column(rows, e)) && var0[e] == Variance(Column(rows, e))
    {
      OnePassIsVariance(Column(rows, d));
      var scaled := m[d] / n as real;
      mean, var0 := mean + [scaled], var0 + [sq[d] / n as real - Times(scaled, scaled)];
    }
    normFeats := [];
    for j := 0 to |feats|
      invariant |normFeats| == j
      invariant forall k :: 0 <= k < j ==> normFeats[k] == NormalisedRow(feats[k], rows, dim, root)
    {
      var row: seq<Value> := [];
      for d := 0 to dim
        invariant |row| == d && forall e :: 0 <= e < d ==> row[e] == NormalisedRow(feats[j], rows, dim, root)[e]
      {
        row := row + [if var0[d] == 0.0 then NotFinite else Finite(Times(feats[j][d] - mean[d], root(1.0 / var0[d])))];
      }
      normFeats := normFeats + [row];
    }
  }

  /** The mean row rolls. */
  lemma MeanRowRolls(rows: seq<Row>, row: Row, dim: nat)
    requires rows != [] && Uniform(rows, dim) && |row| == dim
    ensures Uniform(rows[1..] + [row], dim)
    ensures forall d :: 0 <= d < dim ==>
              MeanRow(rows[1..] + [row], dim)[d] ==
              MeanRow(rows, dim)[d] - rows[0][d] / |rows| as real + row[d] / |rows| as real
  {
    forall d | 0 <= d < dim
      ensures Mean(Column(rows[1..] + [row], d)) ==
              Mean(Column(rows, d)) - rows[0][d] / |rows| as real + row[d] / |rows| as real
    {
      var xs := Column(rows, d);
      MeanRolls(xs, row[d]);
      assert Column(rows[1..] + [row], d) == xs[1..] + [row[d]];
    }
  }

  /** Two means that move alike stay as far apart as they are. */
  lemma DriftStays(norm: Row, mean: Row, norm': Row, mean': Row, oldest: Row, row: Row, hist: nat)
    requires |norm| == |mean| == |norm'| == |mean'| == |oldest| == |row| && hist > 0
    requires forall d :: 0 <= d < |norm| ==> norm'[d] == norm[d] - oldest[d] / hist as real + row[d] / hist as real
    requires forall d :: 0 <= d < |norm| ==> mean'[d] == mean[d] - oldest[d] / hist as real + row[d] / hist as real
    ensures Minus(norm', mean') == Minus(norm, mean)
  {
  }

  method Subtract(feats: seq<Row>, mean: Row) returns (normFeats: seq<Row>)
    requires Uniform(feats, |mean|)
    ensures |normFeats| == |feats|
    ensures forall j :: 0 <= j < |feats| ==> normFeats[j] == Minus(feats[j], mean)
  {
    normFeats := [];
    for j := 0 to |feats|
      invariant |normFeats| == j && forall k :: 0 <= k < j ==> normFeats[k] == Minus(feats[k], mean)
    {
      var row: Row := [];
      for d := 0 to |mean|
        invariant row == Minus(feats[j], mean)[..d]
      {
        row := row + [feats[j][d] - mean[d]];
      }
      normFeats := normFeats + [row];
    }
  }

  lemma UniformRotated(rows: seq<Row>, pos: nat, dim: nat)
    requires pos <= |rows|
    ensures Uniform(Rotated(rows, pos), dim) <==> Uniform(rows, dim)
  {
    var rotated := Rotated(rows, pos);
    assert forall i :: 0 <= i < |rows| ==> rows[i] == rotated[if i >= pos then i - pos else i + |rows| - pos];
  }
}
