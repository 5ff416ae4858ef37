/** What the tracebacks of one utterance print: its path, cut at the immortal tokens. */
module Utterances {
  import opened Tokens
  import opened Lattices

  /** The points an utterance's path was cut at: the dummy token, each new immortal token and, once the
      utterance is finished, the chosen best token; each one a proper ancestor of the next. */
  ghost predicate Chain(g: Graph, cuts: seq<Token>) {
    && cuts != []
    && var n := |cuts| - 1;
       if n == 0 then IsDummy(g, cuts[0])
       else Chain(g, cuts[..n]) && AncestorOrSelf(cuts[n - 1], cuts[n]) && cuts[n - 1] != cuts[n]
  }

  lemma ChainExtends(g: Graph, cuts: seq<Token>, t: Token)
    requires Chain(g, cuts)
    requires AncestorOrSelf(cuts[|cuts| - 1], t) && t != cuts[|cuts| - 1]
    ensures Chain(g, cuts + [t])
  {
    assert (cuts + [t])[..|cuts|] == cuts;
  }

  lemma {:induction false} ChainFromDummy(g: Graph, cuts: seq<Token>)
    requires Chain(g, cuts)
    ensures AncestorOrSelf(cuts[0], cuts[|cuts| - 1])
    ensures cuts[|cuts| - 1].Tok?
  {
    if |cuts| > 1 {
      var earlier := cuts[..|cuts| - 1];
      ChainFromDummy(g, earlier);
      AncestorTransitive(cuts[0], earlier[|earlier| - 1], cuts[|cuts| - 1]);
      AncestorDepth(earlier[|earlier| - 1], cuts[|cuts| - 1]);
    }
  }

  lemma {:induction false} ChainStarts(g: Graph, cuts: seq<Token>)
    requires Chain(g, cuts)
    ensures IsDummy(g, cuts[0])
  {
    if |cuts| > 1 {
      ChainStarts(g, cuts[..|cuts| - 1]);
    }
  }

  /** The links of one traceback, from a token back to an earlier cut. */
  ghost function Piece(g: Graph, start: Token, end: Token): (links: seq<Link>)
    requires AncestorOrSelf(end, start) && start != end
  {
    SegmentNonEmpty(start, end);
    Links(Kept(g, Segment(start, end)))
  }

  /** The arcs of all the tracebacks of an utterance, one traceback after the other. */
  ghost function Printed(g: Graph, cuts: seq<Token>): (links: seq<Link>)
    requires Chain(g, cuts)
  {
    if |cuts| == 1 then []
    else
      var n := |cuts| - 1;
      Printed(g, cuts[..n]) + Piece(g, cuts[n], cuts[n - 1])
  }

  /** The guard under which a traceback leaves out its oldest arc. */
  ghost predicate StartsAtStart(g: Graph, start: Token, end: Token)
    requires AncestorOrSelf(end, start) && start != end
  {
    SegmentNonEmpty(start, end);
    Segment(start, end)[0].arc.nextstate == g.start
  }

  /** The arc one traceback leaves out, if any. */
  ghost function LeftOut(g: Graph, start: Token, end: Token): (links: seq<Link>)
    requires AncestorOrSelf(end, start) && start != end
  {
    SegmentNonEmpty(start, end);
    if StartsAtStart(g, start, end) then [LinkOf(Segment(start, end)[0])] else []
  }

  lemma LinksSplit(path: seq<Token>)
    requires path != [] && forall i :: 0 <= i < |path| ==> path[i].Tok?
    ensures Links(path) == [LinkOf(path[0])] + Links(path[1..])
  {
  }

  lemma LeftOutAndPiece(g: Graph, start: Token, end: Token)
    requires AncestorOrSelf(end, start) && start != end
    ensures LeftOut(g, start, end) + Piece(g, start, end) == Links(Segment(start, end))
  {
    SegmentNonEmpty(start, end);
    LinksSplit(Segment(start, end));
  }

  /** What one traceback leaves out and what it prints are its stretch of the path. */
  lemma PieceAccounting(g: Graph, start: Token, end: Token)
    requires AncestorOrSelf(end, start) && start != end
    ensures LeftOut(g, start, end) + Piece(g, start, end) == Links(Segment(start, end))
    ensures Cost(Piece(g, start, end)) + Cost(LeftOut(g, start, end)) == Weight(start) - Weight(end)
  {
    LeftOutAndPiece(g, start, end);
    PathCostTelescopes(start, end);
    CostOfConcatenation(LeftOut(g, start, end), Piece(g, start, end));
  }

  /** The arcs left out by the tracebacks of an utterance. */
  ghost function Dropped(g: Graph, cuts: seq<Token>): (links: seq<Link>)
    requires Chain(g, cuts)
  {
    if |cuts| == 1 then []
    else
      var n := |cuts| - 1;
      Dropped(g, cuts[..n]) + LeftOut(g, cuts[n], cuts[n - 1])
  }

  /** The full path of an utterance, from the dummy token (excluded) to the last cut. */
  ghost function FullPath(g: Graph, cuts: seq<Token>): (path: seq<Token>)
    requires Chain(g, cuts)
    ensures forall i :: 0 <= i < |path| ==> path[i].Tok?
  {
    ChainFromDummy(g, cuts);
    Segment(cuts[|cuts| - 1], cuts[0])
  }

  lemma FullPathGrows(g: Graph, cuts: seq<Token>)
    requires Chain(g, cuts) && |cuts| > 1
    ensures FullPath(g, cuts) == FullPath(g, cuts[..|cuts| - 1]) + Segment(cuts[|cuts| - 1], cuts[|cuts| - 2])
  {
    ChainFromDummy(g, cuts[..|cuts| - 1]);
    SegmentSplits(cuts[|cuts| - 1], cuts[|cuts| - 2], cuts[0]);
  }

  /** No printed arc is invented: with the dropped arcs counted back in, the lengths and the costs add up to
      the full path's, whose cost is the accumulated weight of the last cut. */
  lemma {:induction false} PrintedAccounting(g: Graph, cuts: seq<Token>)
    requires Chain(g, cuts)
    ensures |Printed(g, cuts)| + |Dropped(g, cuts)| == |FullPath(g, cuts)|
    ensures Cost(Printed(g, cuts)) + Cost(Dropped(g, cuts)) == Weight(cuts[|cuts| - 1])
  {
    if |cuts| > 1 {
      var n := |cuts| - 1;
      var earlier := cuts[..n];
      var piece, out := Piece(g, cuts[n], cuts[n - 1]), LeftOut(g, cuts[n], cuts[n - 1]);
      PrintedAccounting(g, earlier);
      PieceAccounting(g, cuts[n], cuts[n - 1]);
      CostOfConcatenation(Printed(g, earlier), piece);
      CostOfConcatenation(Dropped(g, earlier), out);
      assert |FullPath(g, cuts)| == |FullPath(g, earlier)| + |out + piece| by {
        FullPathGrows(g, cuts);
      }
    }
  }

  lemma PieceWhenNothingLeftOut(g: Graph, start: Token, end: Token)
    requires AncestorOrSelf(end, start) && start != end && LeftOut(g, start, end) == []
    ensures Piece(g, start, end) == Links(Segment(start, end))
  {
    LeftOutAndPiece(g, start, end);
    assert [] + Piece(g, start, end) == Piece(g, start, end);
  }

  lemma LinksOfConcatenation(a: seq<Token>, b: seq<Token>)
    requires (forall i :: 0 <= i < |a| ==> a[i].Tok?) && forall i :: 0 <= i < |b| ==> b[i].Tok?
    ensures Links(a + b) == Links(a) + Links(b)
  {
  }

  lemma {:induction false} PrintedWhenNothingDropped(g: Graph, cuts: seq<Token>)
    requires Chain(g, cuts) && Dropped(g, cuts) == []
    ensures Printed(g, cuts) == Links(FullPath(g, cuts))
  {
    if |cuts| > 1 {
      var n := |cuts| - 1;
      PrintedWhenNothingDropped(g, cuts[..n]);
      PieceWhenNothingLeftOut(g, cuts[n], cuts[n - 1]);
      FullPathGrows(g, cuts);
      LinksOfConcatenation(FullPath(g, cuts[..n]), Segment(cuts[n], cuts[n - 1]));
    }
  }

  /** Consecutive cuts are linked by back pointers. */
  lemma {:induction false} ChainLink(g: Graph, cuts: seq<Token>, j: nat)
    requires Chain(g, cuts) && 0 < j < |cuts|
    ensures AncestorOrSelf(cuts[j - 1], cuts[j]) && cuts[j - 1] != cuts[j] && cuts[j].Tok?
  {
    if j < |cuts| - 1 {
      ChainLink(g, cuts[..|cuts| - 1], j);
    }
  }

  /** The oldest token of the `j`-th traceback. */
  ghost function Oldest(g: Graph, cuts: seq<Token>, j: nat): (t: Token)
    requires Chain(g, cuts) && 0 < j < |cuts|
    ensures t.Tok?
  {
    ChainLink(g, cuts, j);
    SegmentNonEmpty(cuts[j], cuts[j - 1]);
    Segment(cuts[j], cuts[j - 1])[0]
  }

  /** The `j`-th traceback meets the guard under which it leaves that arc out. */
  ghost predicate Shortened(g: Graph, cuts: seq<Token>, j: nat)
    requires Chain(g, cuts) && 0 < j < |cuts|
  {
    ChainLink(g, cuts, j);
    StartsAtStart(g, cuts[j], cuts[j - 1])
  }

  /** Earlier tracebacks are not affected by later ones. */
  lemma EarlierTracebacks(g: Graph, cuts: seq<Token>, j: nat)
    requires Chain(g, cuts) && 0 < j < |cuts| - 1
    ensures Shortened(g, cuts, j) == Shortened(g, cuts[..|cuts| - 1], j)
    ensures Oldest(g, cuts, j) == Oldest(g, cuts[..|cuts| - 1], j)
  {
  }

  lemma LastTraceback(g: Graph, cuts: seq<Token>)
    requires Chain(g, cuts) && |cuts| > 1
    ensures var n := |cuts| - 1;
            LeftOut(g, cuts[n], cuts[n - 1]) == if Shortened(g, cuts, n) then [LinkOf(Oldest(g, cuts, n))] else []
  {
  }

  lemma {:induction false} DroppedByGuard(g: Graph, cuts: seq<Token>)
    requires Chain(g, cuts)
    ensures Dropped(g, cuts) == [] <==> forall j: nat :: 0 < j < |cuts| ==> !Shortened(g, cuts, j)
  {
    if |cuts| > 1 {
      var n := |cuts| - 1;
      DroppedByGuard(g, cuts[..n]);
      LastTraceback(g, cuts);
      forall j: nat | 0 < j < n
        ensures Shortened(g, cuts, j) == Shortened(g, cuts[..n], j)
      {
        EarlierTracebacks(g, cuts, j);
      }
    }
  }

  /** The pieces fit together to exactly the full path if and only if the oldest arc of no piece enters the start
      state; then their costs add up to the accumulated weight of the last cut. */
  lemma PrintedIsWholePath(g: Graph, cuts: seq<Token>)
    requires Chain(g, cuts)
    ensures Printed(g, cuts) == Links(FullPath(g, cuts)) <==>
              forall j: nat :: 0 < j < |cuts| ==> !Shortened(g, cuts, j)
    ensures Printed(g, cuts) == Links(FullPath(g, cuts)) ==> Cost(Printed(g, cuts)) == Weight(cuts[|cuts| - 1])
  {
    PrintedAccounting(g, cuts);
    DroppedByGuard(g, cuts);
    if Dropped(g, cuts) == [] {
      PrintedWhenNothingDropped(g, cuts);
    }
  }

  /** A path of one arc back into the start state is not printed at all. */
  lemma ArcIntoStartIsLost(g: Graph)
    ensures var dummy := Dummy(g, 0);
            var cuts := [dummy, Tok(1, Arc(1, 1, 1.0, g.start), 1.0, dummy)];
            Chain(g, cuts) && Printed(g, cuts) == [] && |FullPath(g, cuts)| == 1
  {
    var dummy := Dummy(g, 0);
    var cuts := [dummy, Tok(1, Arc(1, 1, 1.0, g.start), 1.0, dummy)];
    assert cuts[..1] == [dummy];
    assert Segment(cuts[1], dummy) == [cuts[1]];
  }

  lemma {:induction false} NothingDropped(g: Graph, cuts: seq<Token>)
    requires Chain(g, cuts)
    requires forall i :: 0 <= i < |FullPath(g, cuts)| ==> FullPath(g, cuts)[i].arc.nextstate != g.start
    ensures Dropped(g, cuts) == []
  {
    if |cuts| > 1 {
      var n := |cuts| - 1;
      var earlier := cuts[..n];
      FullPathGrows(g, cuts);
      var before := FullPath(g, earlier);
      assert forall i :: 0 <= i < |before| ==> before[i] == FullPath(g, cuts)[i];
      SegmentNonEmpty(cuts[n], cuts[n - 1]);
      assert Segment(cuts[n], cuts[n - 1])[0] == FullPath(g, cuts)[|before|];
      NothingDropped(g, earlier);
    }
  }

  /** In particular they fit when no arc of the graph enters its start state. */
  lemma PrintedWithoutArcsIntoStart(g: Graph, cuts: seq<Token>)
    requires Chain(g, cuts)
    requires forall i :: 0 <= i < |FullPath(g, cuts)| ==> FullPath(g, cuts)[i].arc.nextstate != g.start
    ensures Printed(g, cuts) == Links(FullPath(g, cuts))
    ensures Cost(Printed(g, cuts)) == Weight(cuts[|cuts| - 1])
  {
    NothingDropped(g, cuts);
    PrintedWhenNothingDropped(g, cuts);
    PrintedAccounting(g, cuts);
  }
}
