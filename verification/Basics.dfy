/** Sequence and number facts that several parts of the model share. */
module Basics {

  /** A feature row. */
  type Row = seq<real>

  /** All rows have `dim` entries. */
  predicate Uniform(rows: seq<Row>, dim: nat) {
    forall i :: 0 <= i < |rows| ==> |rows[i]| == dim
  }

  /** The last `n` elements, or all of them when there are fewer. */
  function Last<T>(s: seq<T>, n: int): (r: seq<T>)
    ensures n <= 0 ==> r == []
    ensures 0 <= n ==> |r| == if |s| < n then |s| else n
  {
    if n <= 0 then [] else if n >= |s| then s else s[|s| - n..]
  }

  /** Pieces laid end to end. */
  function Concat<T>(pieces: seq<seq<T>>): (whole: seq<T>) {
    if pieces == [] then [] else Concat(pieces[..|pieces| - 1]) + pieces[|pieces| - 1]
  }

  lemma ConcatOneMore<T>(pieces: seq<seq<T>>, piece: seq<T>)
    ensures Concat(pieces + [piece]) == Concat(pieces) + piece
  {
    assert (pieces + [piece])[..|pieces|] == pieces;
  }

  lemma {:induction false} ConcatSplits<T>(pieces: seq<seq<T>>, k: nat)
    requires k <= |pieces|
    ensures Concat(pieces) == Concat(pieces[..k]) + Concat(pieces[k..])
  {
    if k == |pieces| {
      assert pieces[..k] == pieces;
    } else {
      var shorter := pieces[..|pieces| - 1];
      ConcatSplits(shorter, k);
      assert shorter[..k] == pieces[..k];
      assert pieces[k..][..|pieces[k..]| - 1] == shorter[k..];
    }
  }

  lemma Appended<T>(a: seq<T>, b: seq<T>)
    ensures (a + b)[..|a|] == a && (a + b)[|a|..] == b
  {
  }

  lemma LastAppended<T>(s: seq<T>, x: T)
    ensures forall i :: 0 <= i <= |s| ==> (s + [x])[i] == if i < |s| then s[i] else x
  {
  }

  /** Slices of a sequence join. */
  lemma SlicesJoin<T>(s: seq<T>, a: nat, b: nat, c: nat)
    requires a <= b <= c <= |s|
    ensures s[a..b] + s[b..c] == s[a..c]
  {
  }

  lemma TakeOfDrop<T>(s: seq<T>, a: nat, n: nat)
    requires a + n <= |s|
    ensures s[a..][..n] == s[a..a + n]
  {
  }

  lemma DropAt<T>(s: seq<T>, a: nat, i: nat)
    requires a + i < |s|
    ensures s[a..][i] == s[a + i]
  {
  }

  lemma SliceOfDrop<T>(s: seq<T>, a: nat, b: nat, n: nat)
    requires a + b + n <= |s|
    ensures s[a..][b..b + n] == s[a + b..a + b + n]
    ensures s[a..][b..] == s[a + b..]
  {
  }

  lemma SliceOneMore<T>(s: seq<T>, a: nat, i: nat)
    requires a <= i < |s|
    ensures s[a..i + 1] == s[a..i] + [s[i]]
  {
  }

  lemma TakeAndDrop<T>(s: seq<T>, k: nat)
    requires k <= |s|
    ensures s[..k] + s[k..] == s
  {
  }

  lemma SplitLast<T>(s: seq<T>)
    requires s != []
    ensures s == s[..|s| - 1] + [s[|s| - 1]]
  {
  }

  lemma PrefixTransitive<T>(a: seq<T>, b: seq<T>, c: seq<T>)
    requires a <= b && b <= c
    ensures a <= c
  {
  }

  lemma EmptyInside<T>(a: seq<T>, b: seq<T>, c: seq<T>)
    requires b == []
    ensures a + (b + c) == a + c
  {
  }

  lemma Associative<T>(a: seq<T>, b: seq<T>, c: seq<T>)
    ensures (a + b) + c == a + (b + c)
  {
  }

  lemma MultiplyMonotonic(a: nat, b: nat, c: nat)
    requires a <= b
    ensures a * c <= b * c
  {
  }

  lemma OneFactorMore(n: nat, a: nat)
    ensures (n + 1) * a == n * a + a
  {
  }

  /** A remainder that takes at most one turn. */
  lemma Wrapped(a: nat, n: nat)
    requires 0 < n && a < n + n
    ensures a % n == if a < n then a else a - n
  {
    QuotientAtLeast(a, n, 1);
    QuotientAtLeast(a, n, 2);
    assert a == (a / n) * n + a % n;
  }

  lemma QuotientAtLeast(a: nat, b: nat, n: nat)
    requires b > 0
    ensures a / b >= n <==> a >= n * b
  {
    var q, r := a / b, a % b;
    assert a == q * b + r;
    if q >= n {
      MultiplyMonotonic(n, q, b);
    } else {
      MultiplyMonotonic(q + 1, n, b);
      assert (q + 1) * b == q * b + b;
    }
  }
}
