/** The linear lattices that tracebacks produce, and the two walks that build them. */
module Lattices {
  import opened Basics
  import opened Tokens

  datatype LatticeArc = LatticeArc(from: int, link: Link, nextstate: int)

  /** A mutable FST as far as the tracebacks use one.  `start == NO_STATE` is an FST without states. */
  datatype Lattice = Lattice(numStates: nat, start: int, arcs: seq<LatticeArc>, finals: map<int, (real, real)>)

  const NO_STATE := -1

  const EMPTY := Lattice(0, NO_STATE, [], map[])

  /** The chain of states 0, 1, ..., |links| with `links[i]` on the arc from `i` to `i + 1`. */
  function Linear(links: seq<Link>, finalWeight: (real, real)): (l: Lattice) {
    Lattice(|links| + 1, 0, seq(|links|, i requires 0 <= i < |links| => LatticeArc(i, links[i], i + 1)),
            map[|links| := finalWeight])
  }

  /** What a reader of a linear lattice sees on its arcs, in order. */
  function LinksOf(l: Lattice): (links: seq<Link>) {
    seq(|l.arcs|, i requires 0 <= i < |l.arcs| => l.arcs[i].link)
  }

  lemma LinksOfLinear(links: seq<Link>, finalWeight: (real, real))
    ensures LinksOf(Linear(links, finalWeight)) == links
  {
    assert forall i :: 0 <= i < |links| ==> LinksOf(Linear(links, finalWeight))[i] == links[i];
  }

  /** Whether `read` can be read from state `s` to state `t`. */
  ghost predicate Reads(l: Lattice, s: int, read: seq<Link>, t: int)
    decreases |read|
  {
    if read == [] then s == t
    else exists i :: 0 <= i < |l.arcs| && l.arcs[i].from == s && l.arcs[i].link == read[0]
                     && Reads(l, l.arcs[i].nextstate, read[1..], t)
  }

  lemma {:induction false} ReadFrom(links: seq<Link>, finalWeight: (real, real), s: nat, read: seq<Link>, t: int)
    requires s <= |links|
    ensures Reads(Linear(links, finalWeight), s, read, t) <==>
              t == s + |read| <= |links| && read == links[s..s + |read|]
    decreases |read|
  {
    var l := Linear(links, finalWeight);
    if read != [] {
      if s < |links| {
        ReadFrom(links, finalWeight, s + 1, read[1..], t);
        assert l.arcs[s] == LatticeArc(s, links[s], s + 1);
        if t == s + |read| <= |links| {
          assert links[s..s + |read|] == [links[s]] + links[s + 1..s + 1 + |read[1..]|];
          assert read == [read[0]] + read[1..];
        }
      }
    }
  }

  /** A linear lattice has one path from its start state to a final state. */
  lemma LinearHasOnePath(links: seq<Link>, finalWeight: (real, real), read: seq<Link>, t: int)
    ensures var l := Linear(links, finalWeight);
            Reads(l, l.start, read, t) && t in l.finals <==> read == links && t == |links|
  {
    ReadFrom(links, finalWeight, 0, read, t);
  }

  /** The final weight put on the last state: the graph's, when the newest token stands in a final state. */
  function FinalWeight(g: Graph, t: Token): (w: (real, real))
    requires t.Tok?
  {
    if t.arc.nextstate in g.finals then (g.finals[t.arc.nextstate], 0.0) else (0.0, 0.0)
  }

  /** The tokens of a path whose arcs are written out: the oldest one is taken for the dummy token, and left
      out, when its arc enters the start state. */
  function Kept(g: Graph, path: seq<Token>): (kept: seq<Token>)
    requires path != []
    requires forall i :: 0 <= i < |path| ==> path[i].Tok?
    ensures forall i :: 0 <= i < |kept| ==> kept[i].Tok?
  {
    if path[0].arc.nextstate == g.start then path[1..] else path
  }

  /** `out` is a chain that carries arc by arc what the tokens of a path carry: labels, the weight of the graph's arc
      and the whole cost of the step.  Its last state has the graph's final cost of the newest token, if it is final. */
  ghost predicate WritesOut(out: Lattice, g: Graph, path: seq<Token>, newest: Token)
    requires newest.Tok? && forall i :: 0 <= i < |path| ==> path[i].Tok?
  {
    && out.numStates == |path| + 1 && out.start == 0 && |out.arcs| == |path|
    && (forall i :: 0 <= i < |path| ==>
          && out.arcs[i].from == i && out.arcs[i].nextstate == i + 1
          && out.arcs[i].link.ilabel == path[i].arc.ilabel && out.arcs[i].link.olabel == path[i].arc.olabel
          && out.arcs[i].link.graphCost == path[i].arc.weight
          && out.arcs[i].link.graphCost + out.arcs[i].link.acousticCost == path[i].weight - Weight(path[i].prev))
    && out.finals
       == map[|path| := (if newest.arc.nextstate in g.finals then g.finals[newest.arc.nextstate] else 0.0, 0.0)]
  }

  lemma LinearWritesOut(g: Graph, path: seq<Token>, newest: Token)
    requires newest.Tok? && forall i :: 0 <= i < |path| ==> path[i].Tok?
    ensures WritesOut(Linear(Links(path), FinalWeight(g, newest)), g, path, newest)
  {
  }

  /** `rev` lists the arcs of `path` from the newest to the oldest. */
  ghost predicate ListsInReverse(rev: seq<(Link, int)>, path: seq<Token>) {
    && |rev| == |path|
    && forall i :: 0 <= i < |rev| ==>
         && path[|path| - 1 - i].Tok?
         && rev[i] == (LinkOf(path[|path| - 1 - i]), path[|path| - 1 - i].arc.nextstate)
  }

  /** The second half of both walks: drops the arc of the fake token and lays the others out as a chain. */
  method LayOut(g: Graph, newest: Token, rev0: seq<(Link, int)>, ghost path: seq<Token>) returns (out: Lattice)
    requires newest.Tok? && rev0 != []
    requires forall i :: 0 <= i < |path| ==> path[i].Tok?
    requires ListsInReverse(rev0, path)
    ensures out == Linear(Links(Kept(g, path)), FinalWeight(g, newest))
  {
    var rev := rev0;
    if rev[|rev| - 1].1 == g.start {
      rev := rev[..|rev| - 1];
    }
    ghost var kept := Kept(g, path);
    assert ListsInReverse(rev, kept);
    out := Lattice(1, 0, [], map[]);
    var curState := 0;
    var i := |rev| - 1;
    while i >= 0
      invariant -1 <= i < |rev|
      invariant curState == |rev| - 1 - i && out.numStates == curState + 1
      invariant out.start == 0 && out.finals == map[]
      invariant |out.arcs| == curState
      invariant forall j :: 0 <= j < curState ==> out.arcs[j] == LatticeArc(j, LinkOf(kept[j]), j + 1)
    {
      var next := out.numStates;
      out := out.(numStates := out.numStates + 1, arcs := out.arcs + [LatticeArc(curState, rev[i].0, next)]);
      curState := next;
      i := i - 1;
    }
    if newest.arc.nextstate in g.finals {
      out := out.(finals := out.finals[curState := (g.finals[newest.arc.nextstate], 0.0)]);
    } else {
      out := out.(finals := out.finals[curState := (0.0, 0.0)]);
    }
    assert out.arcs == Linear(Links(kept), FinalWeight(g, newest)).arcs;
  }

  /** Writes out the path from `end` (excluded) to `start`.  The walk meets `end`, and `back()` is only asked
      of a non-empty list, because `end` is a proper ancestor of `start`. */
  method MakeLattice(g: Graph, start: Token, end: Token) returns (out: Lattice)
    requires start.Tok? ==> AncestorOrSelf(end, start) && start != end
    ensures start.Null? ==> out == EMPTY
    ensures start.Tok? ==> Segment(start, end) != []
    ensures start.Tok? ==> out == Linear(Links(Kept(g, Segment(start, end))), FinalWeight(g, start))
    ensures start.Tok? ==> WritesOut(out, g, Kept(g, Segment(start, end)), start)
  {
    out := EMPTY;
    if start == Null {
      return;
    }
    SegmentNonEmpty(start, end);
    var rev: seq<(Link, int)> := [];
    var tok := start;
    while tok != end
      invariant AncestorOrSelf(end, tok) && AncestorOrSelf(tok, start)
      invariant ListsInReverse(rev, Segment(start, tok))
      decreases Depth(tok)
    {
      rev := rev + [(LinkOf(tok), tok.arc.nextstate)];
      AncestorTransitive(tok.prev, tok, start);
      SegmentSplits(start, tok, tok.prev);
      assert Segment(tok, tok.prev) == [tok];
      tok := tok.prev;
    }
    out := LayOut(g, start, rev, Segment(start, end));
    LinearWritesOut(g, Kept(g, Segment(start, end)), start);
  }

  // ----- Tracing back a number of frames -----

  /** The newest tokens of `t`'s path, back to the `n`-th emitting one or to the dummy token. */
  function Recent(t: Token, n: int): (path: seq<Token>)
    ensures forall i :: 0 <= i < |path| ==> path[i].Tok?
    decreases t
  {
    if t.Null? || n <= 0 then [] else Recent(t.prev, if t.arc.ilabel != 0 then n - 1 else n) + [t]
  }

  /** They are all the tokens on the walk from `t` back to some ancestor; if that is not the end of the path, they have
      `n` emitting tokens, and the oldest of them is one. */
  lemma {:induction false} RecentIsWalk(t: Token, n: int) returns (end: Token)
    ensures AncestorOrSelf(end, t) && Recent(t, n) == Segment(t, end)
    ensures end.Tok? && n > 0 ==> Level(t) - Level(end) == n && Recent(t, n) != [] && Emitting(Recent(t, n)[0])
    decreases t
  {
    end := t;
    if t.Tok? && n > 0 {
      var n' := if t.arc.ilabel != 0 then n - 1 else n;
      end := RecentIsWalk(t.prev, n');
      AncestorDepth(end, t.prev);
      assert Recent(t, n) == Recent(t.prev, n') + [t];
    }
  }

  /** The transition ids on a path: its non-epsilon input labels. */
  function TransitionIds(links: seq<Link>): (ids: seq<int>) {
    if links == [] then []
    else TransitionIds(links[..|links| - 1]) +
         (if links[|links| - 1].ilabel != 0 then [links[|links| - 1].ilabel] else [])
  }

  /** The transition ids of all frames `t` has consumed, one a frame. */
  function Alignment(t: Token): (ids: seq<int>)
    ensures |ids| == Level(t)
  {
    if t.Null? then [] else Alignment(t.prev) + (if t.arc.ilabel != 0 then [t.arc.ilabel] else [])
  }

  lemma LinksOneMore(path: seq<Token>, t: Token)
    requires t.Tok? && forall i :: 0 <= i < |path| ==> path[i].Tok?
    ensures TransitionIds(Links(path + [t]))
            == TransitionIds(Links(path)) + if t.arc.ilabel != 0 then [t.arc.ilabel] else []
  {
    assert Links(path + [t])[..|path|] == Links(path);
  }

  lemma LastOneMore(ids: seq<int>, id: int, n: int)
    requires n > 0
    ensures Last(ids + [id], n) == Last(ids, n - 1) + [id]
  {
  }

  /** Tracing back `n` frames yields the last `n` transition ids, or all of them when there are fewer. */
  lemma {:induction false} RecentAlignment(t: Token, n: int)
    ensures TransitionIds(Links(Recent(t, n))) == Last(Alignment(t), n)
    decreases t
  {
    if t.Tok? && n > 0 {
      var n' := if t.arc.ilabel != 0 then n - 1 else n;
      RecentAlignment(t.prev, n');
      LinksOneMore(Recent(t.prev, n'), t);
      if t.arc.ilabel != 0 {
        LastOneMore(Alignment(t.prev), t.arc.ilabel, n);
      }
    }
  }

  /** Leaving out an arc without a transition id does not change the transition ids. */
  lemma {:induction false} DropLeadingEpsilon(links: seq<Link>)
    requires links != [] && links[0].ilabel == 0
    ensures TransitionIds(links[1..]) == TransitionIds(links)
  {
    if |links| == 1 {
      assert links[1..] == [];
      assert links[..|links| - 1] == [];
    } else {
      assert links[1..][..|links[1..]| - 1] == links[..|links| - 1][1..];
      DropLeadingEpsilon(links[..|links| - 1]);
    }
  }

  /** Writes out the newest `nframes` frames of the path of `best`. */
  method TracebackNFrames(g: Graph, best: Token, nframes0: int) returns (out: Lattice)
    requires best.Tok? ==> nframes0 > 0
    ensures best.Null? ==> out == EMPTY
    ensures best.Tok? ==> Recent(best, nframes0) != []
    ensures best.Tok? ==> out == Linear(Links(Kept(g, Recent(best, nframes0))), FinalWeight(g, best))
    ensures best.Tok? ==> WritesOut(out, g, Kept(g, Recent(best, nframes0)), best)
  {
    if best == Null {
      return EMPTY;
    }
    var rev: seq<(Link, int)> := [];
    var nframes := nframes0;
    var tok := best;
    ghost var walked: seq<Token> := [];
    while tok != Null && nframes > 0
      invariant ListsInReverse(rev, walked)
      invariant forall i :: 0 <= i < |walked| ==> walked[i].Tok?
      invariant Recent(best, nframes0) == Recent(tok, nframes) + walked
      invariant tok != best ==> walked != []
      invariant tok == best ==> nframes == nframes0
      decreases Depth(tok)
    {
      walked := [tok] + walked;
      rev := rev + [(LinkOf(tok), tok.arc.nextstate)];
      if tok.arc.ilabel != 0 {
        nframes := nframes - 1;
      }
      tok := tok.prev;
    }
    assert Recent(best, nframes0) == walked;
    out := LayOut(g, best, rev, walked);
    LinearWritesOut(g, Kept(g, walked), best);
  }
}
