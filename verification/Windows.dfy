/** Context windows over a feature stream: the definition, and rings that hold one. */
module Windows {
  import opened Basics

  /** The window before the rows from `n` on: the last `size` rows of the first `n`, with row 0 repeated in
      front of the stream. */
  function WindowAt<T>(x: seq<T>, size: nat, n: nat): (window: seq<T>)
    requires 0 < |x| && n <= |x|
    ensures |window| == size
  {
    seq(size, i requires 0 <= i < size => x[if n + i < size then 0 else n + i - size])
  }

  /** The frames that can be produced from a whole stream: one a row, each from the rows `left` before it to
      `right` after it; the last `right` rows have no full context. */
  function Windowed<T, U>(x: seq<T>, left: nat, right: nat, f: seq<T> -> U): (outputs: seq<U>)
    ensures |outputs| == if |x| < right then 0 else |x| - right
  {
    if |x| <= right then []
    else seq(|x| - right, t requires 0 <= t < |x| - right => f(WindowAt(x, left + right + 1, t + right + 1)))
  }

  /** Frame `t` sees `x[max(0, t - left)], ..., x[t + right]`. */
  lemma WindowedAt<T, U>(x: seq<T>, left: nat, right: nat, f: seq<T> -> U, t: nat, i: nat)
    requires t + right < |x| && i < left + right + 1
    ensures Windowed(x, left, right, f)[t] == f(WindowAt(x, left + right + 1, t + right + 1))
    ensures WindowAt(x, left + right + 1, t + right + 1)[i] == x[if t + i < left then 0 else t + i - left]
  {
  }

  /** A window moves by one row: the oldest row leaves, the next one enters. */
  lemma WindowMoves<T>(x: seq<T>, size: nat, n: nat)
    requires size > 0 && n < |x|
    ensures WindowAt(x, size, n + 1) == WindowAt(x, size, n)[1..] + [x[n]]
  {
  }

  /** Rows that come later do not change a window. */
  lemma WindowIsCausal<T>(x: seq<T>, y: seq<T>, size: nat, n: nat)
    requires 0 < |x| && n <= |x|
    ensures WindowAt(x + y, size, n) == WindowAt(x, size, n)
  {
  }

  /** Rows that come later only add frames. */
  lemma WindowedGrows<T, U>(x: seq<T>, y: seq<T>, left: nat, right: nat, f: seq<T> -> U)
    ensures Windowed(x, left, right, f) <= Windowed(x + y, left, right, f)
  {
    if |x| > right {
      forall t | 0 <= t < |x| - right
        ensures Windowed(x + y, left, right, f)[t] == Windowed(x, left, right, f)[t]
      {
        WindowIsCausal(x, y, left + right + 1, t + right + 1);
      }
    }
  }

  lemma WindowedOneMore<T, U>(x: seq<T>, row: T, left: nat, right: nat, f: seq<T> -> U)
    requires |x| >= right
    ensures Windowed(x + [row], left, right, f) ==
            Windowed(x, left, right, f) + [f(WindowAt(x + [row], left + right + 1, |x| + 1))]
  {
    WindowedGrows(x, [row], left, right, f);
  }

  // ----- Rings -----

  /** The contents of a ring whose oldest element stands at `pos`, oldest first. */
  function Rotated<T>(ring: seq<T>, pos: nat): (fifo: seq<T>)
    requires pos <= |ring|
  {
    ring[pos..] + ring[..pos]
  }

  lemma RotatedAt<T>(ring: seq<T>, pos: nat, i: nat)
    requires pos < |ring| && i < |ring|
    ensures Rotated(ring, pos)[i] == ring[(pos + i) % |ring|]
  {
    Wrapped(pos + i, |ring|);
  }

  /** Overwriting the oldest element and moving on takes it out and appends the new one. */
  lemma RotatedPush<T>(ring: seq<T>, pos: nat, v: T)
    requires pos < |ring|
    ensures (pos + 1) % |ring| == if pos + 1 == |ring| then 0 else pos + 1
    ensures Rotated(ring[pos := v], (pos + 1) % |ring|) == Rotated(ring, pos)[1..] + [v]
  {
    var pushed := ring[pos := v];
    Wrapped(pos + 1, |ring|);
    if pos + 1 == |ring| {
      assert Rotated(pushed, 0) == pushed;
    } else {
      assert pushed[pos + 1..] == Rotated(ring, pos)[1..|ring| - pos];
    }
  }
}
