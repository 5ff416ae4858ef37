/** Splicing feature rows with their context: online with a ring, online with a shifted window, and over a whole
    file at once. */
module Splices {
  import opened Basics
  import opened Windows

  /** A window's rows end to end. */
  function Splice(window: seq<Row>): (spliced: Row) {
    Concat(window)
  }

  /** The rows of a stream, spliced with their context and transformed. */
  function Spliced(x: seq<Row>, left: nat, right: nat, transform: Row -> Row): (outputs: seq<Row>) {
    Windowed(x, left, right, (window: seq<Row>) => transform(Splice(window)))
  }

  // ----- Where the context lands in a spliced vector -----

  lemma {:induction false} SpliceLength(window: seq<Row>, dim: nat)
    requires Uniform(window, dim)
    ensures |Splice(window)| == |window| * dim
  {
    if window != [] {
      var n := |window| - 1;
      SpliceLength(window[..n], dim);
      OneFactorMore(n, dim);
    }
  }

  lemma EntryIndex(i: nat, n: nat, dim: nat, d: nat)
    requires i < n && d < dim
    ensures i * dim + d < n * dim
  {
    OneFactorMore(i, dim);
    MultiplyMonotonic(i + 1, n, dim);
  }

  /** Row `i` of a window fills the entries from `i * dim` on. */
  lemma {:induction false} SpliceAt(window: seq<Row>, dim: nat, i: nat, d: nat)
    requires Uniform(window, dim) && i < |window| && d < dim
    ensures i * dim + d < |Splice(window)| == |window| * dim
    ensures Splice(window)[i * dim + d] == window[i][d]
  {
    var n := |window| - 1;
    SpliceLength(window, dim);
    SpliceLength(window[..n], dim);
    EntryIndex(i, |window|, dim, d);
    if i < n {
      SpliceAt(window[..n], dim, i, d);
    }
  }

  /** What the transform makes frame `t` of: a vector whose entry `i * dim + d` is entry `d` of the row that stands
      `i - left` behind row `t`, or of row 0 before the stream. */
  lemma SplicedAt(x: seq<Row>, left: nat, right: nat, transform: Row -> Row, dim: nat, t: nat, i: nat, d: nat)
    returns (v: Row)
    requires Uniform(x, dim) && t + right < |x| && i < left + right + 1 && d < dim
    ensures |Spliced(x, left, right, transform)| == |x| - right
    ensures Spliced(x, left, right, transform)[t] == transform(v)
    ensures |v| == (left + right + 1) * dim && i * dim + d < |v|
    ensures v[i * dim + d] == x[if t + i < left then 0 else t + i - left][d]
  {
    var window := WindowAt(x, left + right + 1, t + right + 1);
    v := Splice(window);
    SpliceAt(window, dim, i, d);
  }

  /** Without a transform: the entries of frame `t`. */
  lemma EntryOfFrame(x: seq<Row>, left: nat, right: nat, dim: nat, t: nat, i: nat, d: nat)
    requires Uniform(x, dim) && t + right < |x| && i < left + right + 1 && d < dim
    ensures var frame := Spliced(x, left, right, (row: Row) => row)[t];
            && |frame| == (left + right + 1) * dim && i * dim + d < |frame|
            && frame[i * dim + d] == x[if t + i < left then 0 else t + i - left][d]
  {
    var v := SplicedAt(x, left, right, (row: Row) => row, dim, t, i, d);
  }

  /** Whether the window can be filled from a first batch. */
  predicate CanStart(rows: nat, right: nat) {
    rows > 0 && rows >= right
  }

  /** Fills a new window from the first rows of a stream: row 0 up to the centre, then the rows from 0 on. */
  method InitFeatWindow(feats: seq<Row>, left: nat, right: nat) returns (featWindow: array<Row>)
    requires CanStart(|feats|, right)
    ensures fresh(featWindow) && featWindow.Length == left + right + 1
    ensures featWindow[..] == WindowAt(feats, left + right + 1, right)
  {
    var windowSize, windowCenter := left + right + 1, left;
    featWindow := new Row[windowSize](_ => []);
    var i := 0;
    while i <= windowCenter
      invariant i <= windowCenter + 1
      invariant forall j :: 0 <= j < i ==> featWindow[j] == feats[0]
    {
      featWindow[i] := feats[0];
      i := i + 1;
    }
    while i < windowSize
      invariant windowCenter < i <= windowSize
      invariant forall j :: 0 <= j < i ==> featWindow[j] == WindowAt(feats, windowSize, right)[j]
    {
      featWindow[i] := feats[i - windowCenter - 1];
      i := i + 1;
    }
  }

  /** Splices the rows of a ring, from the oldest on. */
  method SpliceRing(featWindow: array<Row>, windowPos: nat) returns (spliced: Row)
    requires windowPos < featWindow.Length
    ensures spliced == Splice(Rotated(featWindow[..], windowPos))
  {
    ghost var fifo := Rotated(featWindow[..], windowPos);
    spliced := [];
    var fwi := windowPos;
    for i := 0 to featWindow.Length
      invariant fwi == (windowPos + i) % featWindow.Length
      invariant spliced == Splice(fifo[..i])
    {
      RotatedAt(featWindow[..], windowPos, i);
      assert fifo[..i + 1][..i] == fifo[..i];
      spliced := spliced + featWindow[fwi];
      fwi := (fwi + 1) % featWindow.Length;
      NextIndex(windowPos, i, featWindow.Length);
    }
    assert fifo[..featWindow.Length] == fifo;
  }

  lemma NextIndex(pos: nat, i: nat, n: nat)
    requires pos < n && i < n
    ensures ((pos + i) % n + 1) % n == (pos + i + 1) % n
  {
    Wrapped(pos + i, n);
    Wrapped((pos + i) % n + 1, n);
    Wrapped(pos + i + 1, n);
  }

  /** The frame that row `n` completes. */
  lemma FrameCompleted<T, U>(x: seq<T>, left: nat, right: nat, f: seq<T> -> U, n: nat)
    requires right <= n < |x|
    ensures Windowed(x[..n + 1], left, right, f) ==
            Windowed(x[..n], left, right, f) + [f(WindowAt(x, left + right + 1, n + 1))]
  {
    assert x[..n + 1] == x[..n] + [x[n]];
    WindowedOneMore(x[..n], x[n], left, right, f);
    assert x == x[..n + 1] + x[n + 1..];
    WindowIsCausal(x[..n + 1], x[n + 1..], left + right + 1, n + 1);
  }

  /** The ring moves on by one row. */
  lemma RingMoves<T>(ring: seq<T>, pos: nat, x: seq<T>, n: nat)
    requires pos < |ring| && n < |x|
    requires Rotated(ring, pos) == WindowAt(x, |ring|, n)
    ensures (pos + 1) % |ring| < |ring|
    ensures Rotated(ring[pos := x[n]], (pos + 1) % |ring|) == WindowAt(x, |ring|, n + 1)
  {
    RotatedPush(ring, pos, x[n]);
    WindowMoves(x, |ring|, n);
  }

  /** Puts row `n` of a stream into the ring and splices the window of the frame it completes. */
  method SpliceRow(featWindow: array<Row>, windowPos0: nat, row: Row, ghost x: seq<Row>, ghost n: nat)
    returns (windowPos: nat, spliced: Row)
    requires windowPos0 < featWindow.Length && n < |x| && row == x[n]
    requires Rotated(featWindow[..], windowPos0) == WindowAt(x, featWindow.Length, n)
    modifies featWindow
    ensures windowPos < featWindow.Length
    ensures Rotated(featWindow[..], windowPos) == WindowAt(x, featWindow.Length, n + 1)
    ensures spliced == Splice(WindowAt(x, featWindow.Length, n + 1))
  {
    ghost var ring := featWindow[..];
    RingMoves(ring, windowPos0, x, n);
    featWindow[windowPos0] := row;
    assert featWindow[..] == ring[windowPos0 := x[n]];
    windowPos := (windowPos0 + 1) % featWindow.Length;
    spliced := SpliceRing(featWindow, windowPos);
  }

  /** Pushes the rows of a batch from `curFeat` on through the ring, and splices after each. */
  method SpliceBatch(featWindow: array<Row>, windowPos0: nat, featIn: seq<Row>, curFeat0: nat, transform: Row -> Row,
                     ghost x: seq<Row>, ghost before: nat, ghost left: nat, ghost right: nat, ghost produced: seq<Row>)
    returns (windowPos: nat, output: seq<Row>)
    requires windowPos0 < featWindow.Length == left + right + 1
    requires |x| == before + |featIn| && x[before..] == featIn
    requires curFeat0 <= |featIn| && before + curFeat0 >= right && |x| > 0
    requires Rotated(featWindow[..], windowPos0) == WindowAt(x, left + right + 1, before + curFeat0)
    requires produced == Spliced(x[..before + curFeat0], left, right, transform)
    modifies featWindow
    ensures windowPos < featWindow.Length
    ensures Rotated(featWindow[..], windowPos) == WindowAt(x, left + right + 1, |x|)
    ensures produced + output == Spliced(x, left, right, transform)
  {
    ghost var f := (window: seq<Row>) => transform(Splice(window));
    windowPos, output := windowPos0, [];
    var curFeat := curFeat0;
    ghost var n := before + curFeat0;
    while curFeat < |featIn|
      invariant curFeat0 <= curFeat <= |featIn| && n == before + curFeat && windowPos < featWindow.Length
      invariant Rotated(featWindow[..], windowPos) == WindowAt(x, left + right + 1, n)
      invariant produced + output == Windowed(x[..n], left, right, f)
    {
      DropAt(x, before, curFeat);
      var splicedRow;
      windowPos, splicedRow := SpliceRow(featWindow, windowPos, featIn[curFeat], x, n);
      FrameCompleted(x, left, right, f, n);
      Associative(produced, output, [transform(splicedRow)]);
      output := output + [transform(splicedRow)];
      curFeat, n := curFeat + 1, n + 1;
    }
    assert x[..n] == x;
  }

  class OnlineLdaInput {
    const left: nat
    const right: nat
    const transform: Row -> Row

    var featWindow: array<Row>
    var windowPos: nat

    /** The rows received since the window was filled. */
    ghost var history: seq<Row>

    constructor (left: nat, right: nat, transform: Row -> Row)
      ensures Valid() && fresh(featWindow) && history == []
      ensures this.left == left && this.right == right && this.transform == transform
    {
      this.left, this.right, this.transform := left, right, transform;
      featWindow, windowPos, history := new Row[0], 0, [];
    }

    function WindowSize(): (n: nat) {
      left + right + 1
    }

    /** The window holds the last rows of the history, oldest first from `windowPos` on. */
    ghost predicate Valid()
      reads this, featWindow
    {
      if featWindow.Length == 0 then history == []
      else
        && featWindow.Length == WindowSize() && windowPos < WindowSize()
        && CanStart(|history|, right)
        && Rotated(featWindow[..], windowPos) == WindowAt(history, WindowSize(), |history|)
    }

    /** A first batch that is short of what was asked for, and too short for the window, is thrown away. */
    predicate ThrownAway(rows: nat, requested: nat)
      reads this
    {
      rows != requested && (rows == 0 || (rows < WindowSize() && featWindow.Length == 0))
    }

    /** Prepares the window for a batch: fills it from the first one, and leaves it as it is for a later one. */
    method PrepareWindow(featIn: seq<Row>) returns (curFeat: nat)
      requires Valid()
      requires featWindow.Length == 0 ==> CanStart(|featIn|, right)
      modifies this`featWindow, this`windowPos
      ensures featWindow == old(featWindow) || fresh(featWindow)
      ensures featWindow.Length == WindowSize() && windowPos < WindowSize()
      ensures CanStart(|history + featIn|, right)
      ensures curFeat <= |featIn| && |history| + curFeat >= right
      ensures Rotated(featWindow[..], windowPos) == WindowAt(history + featIn, WindowSize(), |history| + curFeat)
      ensures Spliced(history, left, right, transform)
              == Spliced((history + featIn)[..|history| + curFeat], left, right, transform)
    {
      curFeat := 0;
      if featWindow.Length == 0 {
        featWindow := InitFeatWindow(featIn, left, right);
        windowPos := 0;
        curFeat := right;
        StreamStarts(featIn, left, right, (window: seq<Row>) => transform(Splice(window)));
      } else {
        WindowIsCausal(history, featIn, left + right + 1, |history|);
        Appended(history, featIn);
      }
    }

    /** Pushes a batch through the window. */
    method TakeIn(featIn: seq<Row>) returns (output: seq<Row>)
      requires Valid()
      requires featWindow.Length == 0 ==> CanStart(|featIn|, right)
      modifies this, featWindow
      ensures Valid() && (featWindow == old(featWindow) || fresh(featWindow))
      ensures history == old(history) + featIn && featWindow.Length > 0
      ensures Spliced(old(history), left, right, transform) + output == Spliced(history, left, right, transform)
    {
      ghost var before := history;
      var curFeat := PrepareWindow(featIn);
      history := before + featIn;
      Appended(before, featIn);
      windowPos, output := SpliceBatch(featWindow, windowPos, featIn, curFeat, transform,
                                       history, |before|, left, right, Spliced(before, left, right, transform));
    }

    /** Takes one batch and produces the frames it completes. */
    method Compute(featIn: seq<Row>, requested: nat) returns (output: seq<Row>)
      requires Valid()
      requires featWindow.Length == 0 && |featIn| == requested ==> CanStart(requested, right)
      modifies this, featWindow
      ensures Valid() && (featWindow == old(featWindow) || fresh(featWindow))
      ensures old(ThrownAway(|featIn|, requested)) ==>
                output == [] && history == old(history) && featWindow == old(featWindow)
      ensures !old(ThrownAway(|featIn|, requested)) ==> history == old(history) + featIn && featWindow.Length > 0
      ensures Spliced(old(history), left, right, transform) + output == Spliced(history, left, right, transform)
    {
      output := [];
      if |featIn| != requested && (|featIn| == 0 || (|featIn| < left + right + 1 && featWindow.Length == 0)) {
        return;
      }
      output := TakeIn(featIn);
    }
  }

  /** Before the first `right` rows are in, nothing can be produced. */
  lemma StreamStarts<U>(x: seq<Row>, left: nat, right: nat, f: seq<Row> -> U)
    requires CanStart(|x|, right)
    ensures [] + x == x
    ensures Windowed(x[..right], left, right, f) == [] == Windowed([], left, right, f)
  {
  }

  // ----- A whole file at once -----

  /** File mode: the same window over the whole matrix, in one go. */
  method LdaTransform(cmvn: seq<Row>, left: nat, right: nat, transform: Row -> Row) returns (output: seq<Row>)
    requires CanStart(|cmvn|, right)
    ensures output == Spliced(cmvn, left, right, transform)
  {
    var windowSize, windowCenter := left + right + 1, left;
    ghost var f := (window: seq<Row>) => transform(Splice(window));
    var curFeat := windowSize - windowCenter - 1;
    var featWindow := InitFeatWindow(cmvn, left, right);
    var windowPos: nat := 0;
    output := [];
    while curFeat < |cmvn|
      invariant right <= curFeat <= |cmvn| && windowPos < windowSize == featWindow.Length
      invariant fresh(featWindow)
      invariant Rotated(featWindow[..], windowPos) == WindowAt(cmvn, windowSize, curFeat)
      invariant output == Windowed(cmvn[..curFeat], left, right, f)
    {
      var splicedRow;
      windowPos, splicedRow := SpliceRow(featWindow, windowPos, cmvn[curFeat], cmvn, curFeat);
      FrameCompleted(cmvn, left, right, f, curFeat);
      output := output + [transform(splicedRow)];
      curFeat := curFeat + 1;
    }
    assert cmvn[..curFeat] == cmvn;
  }

  // ----- Online and file mode agree -----

  /** The number of leading batches that are thrown away before the window is filled. */
  function Lost(batches: seq<seq<Row>>, requested: nat, size: nat): (k: nat)
    ensures k <= |batches|
  {
    if batches == [] || |batches[0]| == requested || |batches[0]| >= size then 0
    else 1 + Lost(batches[1..], requested, size)
  }

  lemma LostAt(batches: seq<seq<Row>>, requested: nat, size: nat, i: nat)
    requires i < |batches|
    ensures i < Lost(batches, requested, size) ==> |batches[i]| != requested && |batches[i]| < size
    ensures i == Lost(batches, requested, size) ==> |batches[i]| == requested || |batches[i]| >= size
    decreases i
  {
    if i > 0 && Lost(batches, requested, size) > 0 {
      LostAt(batches[1..], requested, size, i - 1);
    }
  }

  /** The part of a batched stream that the online splice works on. */
  function Used(batches: seq<seq<Row>>, requested: nat, size: nat): (x: seq<Row>) {
    Concat(batches[Lost(batches, requested, size)..])
  }

  /** The first batch with rows in it is complete or as long as the window. */
  predicate StartsWell(batches: seq<seq<Row>>, requested: nat, size: nat) {
    batches == [] ||
    if batches[0] == [] then StartsWell(batches[1..], requested, size)
    else |batches[0]| == requested || |batches[0]| >= size
  }

  lemma ConcatFromFront<T>(pieces: seq<seq<T>>)
    requires pieces != []
    ensures Concat(pieces) == pieces[0] + Concat(pieces[1..])
  {
    ConcatSplits(pieces, 1);
    assert pieces[..1] == [pieces[0]] && [pieces[0]][..0] == [];
  }

  /** No row is thrown away exactly when the stream starts well. */
  lemma {:induction false} LostRows(batches: seq<seq<Row>>, requested: nat, size: nat)
    requires requested > 0 && size > 0
    ensures Concat(batches) == Concat(batches[..Lost(batches, requested, size)]) + Used(batches, requested, size)
    ensures Concat(batches[..Lost(batches, requested, size)]) == [] <==> StartsWell(batches, requested, size)
  {
    var lost := Lost(batches, requested, size);
    ConcatSplits(batches, lost);
    if lost > 0 {
      LostRows(batches[1..], requested, size);
      ConcatFromFront(batches[..lost]);
      assert batches[..lost][1..] == batches[1..][..lost - 1];
    }
  }

  lemma SplicedLength(x: seq<Row>, left: nat, right: nat, transform: Row -> Row)
    ensures |Spliced(x, left, right, transform)| == if |x| < right then 0 else |x| - right
  {
  }

  /** No frame is lost if and only if the stream starts well or is too short to yield any. */
  lemma NothingLost(batches: seq<seq<Row>>, requested: nat, left: nat, right: nat, transform: Row -> Row)
    requires requested > 0
    ensures Spliced(Used(batches, requested, left + right + 1), left, right, transform)
            == Spliced(Concat(batches), left, right, transform) <==>
              StartsWell(batches, requested, left + right + 1) || |Concat(batches)| <= right
  {
    var used, whole := Used(batches, requested, left + right + 1), Concat(batches);
    var lost := Concat(batches[..Lost(batches, requested, left + right + 1)]);
    LostRows(batches, requested, left + right + 1);
    SplicedLength(used, left, right, transform);
    SplicedLength(whole, left, right, transform);
    if lost == [] {
      assert [] + used == used;
    } else {
      assert |whole| == |lost| + |used|;
    }
  }

  /** A first row that comes alone is lost, and the frame it should have been the centre of with it. */
  lemma ShortFirstBatchIsLost(row: Row, transform: Row -> Row)
    ensures var batches := [[row], [row, row, row]];
            && Used(batches, 3, 3) == [row, row, row] && Concat(batches) == [row, row, row, row]
            && |Spliced(Used(batches, 3, 3), 1, 1, transform)| == 2
            && |Spliced(Concat(batches), 1, 1, transform)| == 3
  {
    var first, second := [row], [row, row, row];
    var batches := [first, second];
    assert batches[1..] == [second] && [second][0..] == [second];
    assert Lost([second], 3, 3) == 0 && Lost(batches, 3, 3) == 1;
    assert [second][..0] == [] && batches[..1] == [first] && [first][..0] == [];
    assert Concat([second]) == second;
    SplicedLength(second, 1, 1, transform);
    SplicedLength(Concat(batches), 1, 1, transform);
  }

  /** The rows of the batches from `lost` up to, not including, `i`. */
  ghost function UsedTo(batches: seq<seq<Row>>, lost: nat, i: nat): (x: seq<Row>)
    requires i <= |batches|
  {
    if i <= lost then [] else UsedTo(batches, lost, i - 1) + batches[i - 1]
  }

  lemma {:induction false} UsedToIsConcat(batches: seq<seq<Row>>, lost: nat, i: nat)
    requires lost <= i <= |batches|
    ensures UsedTo(batches, lost, i) == Concat(batches[lost..i])
  {
    if i > lost {
      UsedToIsConcat(batches, lost, i - 1);
      assert batches[lost..i][..i - 1 - lost] == batches[lost..i - 1];
    }
  }

  /** Feeds a stream, batch by batch, through the online splice. */
  method SpliceOnline(lda: OnlineLdaInput, batches: seq<seq<Row>>, requested: nat) returns (output: seq<Row>)
    requires lda.Valid() && lda.featWindow.Length == 0
    requires CanStart(requested, lda.right)
    modifies lda, lda.featWindow
    ensures output == Spliced(Used(batches, requested, lda.WindowSize()), lda.left, lda.right, lda.transform)
  {
    output := [];
    ghost var lost := Lost(batches, requested, lda.WindowSize());
    assert Spliced([], lda.left, lda.right, lda.transform) == [];
    for i := 0 to |batches|
      invariant lda.Valid() && (lda.featWindow == old(lda.featWindow) || fresh(lda.featWindow))
      invariant lda.featWindow.Length == 0 <==> i <= lost
      invariant lda.history == UsedTo(batches, lost, i)
      invariant output == Spliced(lda.history, lda.left, lda.right, lda.transform)
    {
      LostAt(batches, requested, lda.WindowSize(), i);
      var frames := lda.Compute(batches[i], requested);
      output := output + frames;
    }
    UsedToIsConcat(batches, lost, |batches|);
    assert batches[lost..|batches|] == batches[lost..];
  }

  /** The online splice of a batched stream and the file-mode splice of the whole stream are the same frames exactly
      when the stream starts well or is too short to yield any. */
  method SpliceBothWays(lda: OnlineLdaInput, batches: seq<seq<Row>>, requested: nat)
    returns (online: seq<Row>, file: seq<Row>)
    requires lda.Valid() && lda.featWindow.Length == 0
    requires CanStart(requested, lda.right) && CanStart(|Concat(batches)|, lda.right)
    modifies lda, lda.featWindow
    ensures file == Spliced(Concat(batches), lda.left, lda.right, lda.transform)
    ensures online == file <==>
              StartsWell(batches, requested, lda.WindowSize()) || |Concat(batches)| <= lda.right
  {
    NothingLost(batches, requested, lda.left, lda.right, lda.transform);
    online := SpliceOnline(lda, batches, requested);
    file := LdaTransform(Concat(batches), lda.left, lda.right, lda.transform);
  }

  // ----- The shifted window -----

  /** Shifts a window up by one row and puts a new one at its end. */
  method ShiftWindow(featWindow: array<Row>, row: Row)
    requires featWindow.Length > 0
    modifies featWindow
    ensures featWindow[..] == old(featWindow[..])[1..] + [row]
  {
    ghost var before := featWindow[..];
    for i := 0 to featWindow.Length - 1
      invariant forall j :: 0 <= j < i ==> featWindow[j] == before[j + 1]
      invariant forall j :: i <= j < featWindow.Length ==> featWindow[j] == before[j]
    {
      featWindow[i] := featWindow[i + 1];
    }
    featWindow[featWindow.Length - 1] := row;
  }

  class OnlineDeltaInput {
    /** The window reaches `window * order` rows to either side. */
    const reach: nat
    const delta: seq<Row> -> Row

    var featWindow: array<Row>
    ghost var history: seq<Row>

    constructor (order: nat, window: nat, delta: seq<Row> -> Row)
      ensures Valid() && fresh(featWindow) && history == [] && featWindow.Length == 0
      ensures reach == window * order && this.delta == delta
    {
      this.reach, this.delta := window * order, delta;
      featWindow, history := new Row[0], [];
    }

    function WindowSize(): (n: nat) {
      2 * reach + 1
    }

    /** The shifted window holds its rows in order. */
    ghost predicate Valid()
      reads this, featWindow
    {
      if featWindow.Length == 0 then history == []
      else
        && featWindow.Length == WindowSize()
        && CanStart(|history|, reach)
        && featWindow[..] == WindowAt(history, WindowSize(), |history|)
    }

    predicate ThrownAway(rows: nat, requested: nat)
      reads this
    {
      rows != requested && (rows == 0 || (rows < WindowSize() && featWindow.Length == 0))
    }

    /** Prepares the window for a batch: fills it from the first one, and leaves it as it is for a later one. */
    method PrepareWindow(featIn: seq<Row>) returns (curFeat: nat)
      requires Valid()
      requires featWindow.Length == 0 ==> CanStart(|featIn|, reach)
      modifies this`featWindow
      ensures featWindow == old(featWindow) || fresh(featWindow)
      ensures featWindow.Length == WindowSize() && CanStart(|history + featIn|, reach)
      ensures curFeat <= |featIn| && |history| + curFeat >= reach
      ensures featWindow[..] == WindowAt(history + featIn, WindowSize(), |history| + curFeat)
      ensures Windowed(history, reach, reach, delta)
              == Windowed((history + featIn)[..|history| + curFeat], reach, reach, delta)
    {
      curFeat := 0;
      if featWindow.Length == 0 {
        featWindow := InitFeatWindow(featIn, reach, reach);
        curFeat := reach;
        StreamStarts(featIn, reach, reach, delta);
      } else {
        WindowIsCausal(history, featIn, 2 * reach + 1, |history|);
        Appended(history, featIn);
      }
    }

    /** Pushes a batch through the window. */
    method TakeIn(featIn: seq<Row>) returns (output: seq<Row>)
      requires Valid()
      requires featWindow.Length == 0 ==> CanStart(|featIn|, reach)
      modifies this, featWindow
      ensures Valid() && (featWindow == old(featWindow) || fresh(featWindow))
      ensures history == old(history) + featIn && featWindow.Length > 0
      ensures Windowed(old(history), reach, reach, delta) + output == Windowed(history, reach, reach, delta)
    {
      ghost var before := history;
      var curFeat := PrepareWindow(featIn);
      history := before + featIn;
      Appended(before, featIn);
      output := DeltaBatch(featWindow, featIn, curFeat, delta, history, |before|, reach,
                           Windowed(before, reach, reach, delta));
    }

    /** Takes one batch and produces the frames it completes. */
    method Compute(featIn: seq<Row>, requested: nat) returns (output: seq<Row>)
      requires Valid()
      requires featWindow.Length == 0 && |featIn| == requested ==> CanStart(requested, reach)
      modifies this, featWindow
      ensures Valid() && (featWindow == old(featWindow) || fresh(featWindow))
      ensures old(ThrownAway(|featIn|, requested)) ==>
                output == [] && history == old(history) && featWindow == old(featWindow)
      ensures !old(ThrownAway(|featIn|, requested)) ==> history == old(history) + featIn && featWindow.Length > 0
      ensures Windowed(old(history), reach, reach, delta) + output == Windowed(history, reach, reach, delta)
    {
      output := [];
      if |featIn| != requested && (|featIn| == 0 || (|featIn| < 2 * reach + 1 && featWindow.Length == 0)) {
        return;
      }
      output := TakeIn(featIn);
    }
  }

  /** Puts row `n` of a stream into the shifted window, and computes the deltas of the frame it completes. */
  method DeltaRow(featWindow: array<Row>, row: Row, delta: seq<Row> -> Row, ghost x: seq<Row>, ghost n: nat)
    returns (output: Row)
    requires featWindow.Length > 0 && n < |x| && row == x[n]
    requires featWindow[..] == WindowAt(x, featWindow.Length, n)
    modifies featWindow
    ensures featWindow[..] == WindowAt(x, featWindow.Length, n + 1)
    ensures output == delta(WindowAt(x, featWindow.Length, n + 1))
  {
    WindowMoves(x, featWindow.Length, n);
    ShiftWindow(featWindow, row);
    output := delta(featWindow[..]);
  }

  /** Pushes the rows of a batch from `curFeat0` on through the shifted window, and computes deltas after each. */
  method DeltaBatch(featWindow: array<Row>, featIn: seq<Row>, curFeat0: nat, delta: seq<Row> -> Row,
                    ghost x: seq<Row>, ghost before: nat, ghost reach: nat, ghost produced: seq<Row>)
    returns (output: seq<Row>)
    requires featWindow.Length == 2 * reach + 1
    requires |x| == before + |featIn| && x[before..] == featIn
    requires curFeat0 <= |featIn| && before + curFeat0 >= reach && |x| > 0
    requires featWindow[..] == WindowAt(x, 2 * reach + 1, before + curFeat0)
    requires produced == Windowed(x[..before + curFeat0], reach, reach, delta)
    modifies featWindow
    ensures featWindow[..] == WindowAt(x, 2 * reach + 1, |x|)
    ensures produced + output == Windowed(x, reach, reach, delta)
  {
    output := [];
    var curFeat := curFeat0;
    ghost var n := before + curFeat0;
    while curFeat < |featIn|
      invariant curFeat0 <= curFeat <= |featIn| && n == before + curFeat
      invariant featWindow[..] == WindowAt(x, 2 * reach + 1, n)
      invariant produced + output == Windowed(x[..n], reach, reach, delta)
    {
      DropAt(x, before, curFeat);
      var row := DeltaRow(featWindow, featIn[curFeat], delta, x, n);
      FrameCompleted(x, reach, reach, delta, n);
      Associative(produced, output, [row]);
      output := output + [row];
      curFeat, n := curFeat + 1, n + 1;
    }
    assert x[..n] == x;
  }

  /** The ring read from its position and the shifted window are the same queue: after the same rows, with the
      same reach, they hold the same rows in the same order. */
  lemma RingIsShiftedWindow(lda: OnlineLdaInput, delta: OnlineDeltaInput)
    requires lda.Valid() && delta.Valid()
    requires lda.left == lda.right == delta.reach
    requires lda.history == delta.history != []
    ensures Rotated(lda.featWindow[..], lda.windowPos) == delta.featWindow[..]
  {
  }
}
