/** The decoder's token forest: search tokens linked by back pointers.

    A token is never changed after it is created, so a token pointer is modelled by a value that carries
    the token's address: two pointers are equal exactly when the two values are.  `Null` is the NULL pointer. */
module Tokens {

  /** An arc of the decoding graph; `ilabel == 0` is an epsilon (non-emitting) arc. */
  datatype Arc = Arc(ilabel: int, olabel: int, weight: real, nextstate: int)

  /** `weight` is the cost accumulated from the dummy token on. */
  datatype Token = Null | Tok(addr: nat, arc: Arc, weight: real, prev: Token)

  /** The start state of the decoding graph, and the final cost of each final state. */
  datatype Graph = Graph(start: int, finals: map<int, real>)

  /** What one arc of a traceback lattice says, apart from its state numbers. */
  datatype Link = Link(ilabel: int, olabel: int, graphCost: real, acousticCost: real)

  /** The token every utterance starts from. */
  function Dummy(g: Graph, addr: nat): (t: Token) {
    Tok(addr, Arc(0, 0, 0.0, g.start), 0.0, Null)
  }

  predicate IsDummy(g: Graph, t: Token) {
    t.Tok? && t == Dummy(g, t.addr)
  }

  function Weight(t: Token): (w: real) {
    if t.Null? then 0.0 else t.weight
  }

  predicate Emitting(t: Token) {
    t.Tok? && t.arc.ilabel != 0
  }

  // ----- Ancestors -----

  /** `a` is `t` or is reached from `t` along back pointers. */
  predicate AncestorOrSelf(a: Token, t: Token) {
    t == a || (t.Tok? && AncestorOrSelf(a, t.prev))
  }

  function Depth(t: Token): (d: nat) {
    if t.Null? then 0 else 1 + Depth(t.prev)
  }

  lemma {:induction false} AncestorDepth(a: Token, t: Token)
    requires AncestorOrSelf(a, t)
    ensures Depth(a) <= Depth(t)
    ensures Depth(a) == Depth(t) ==> a == t
  {
    if t != a {
      AncestorDepth(a, t.prev);
    }
  }

  lemma {:induction false} AncestorTransitive(a: Token, b: Token, c: Token)
    requires AncestorOrSelf(a, b) && AncestorOrSelf(b, c)
    ensures AncestorOrSelf(a, c)
  {
    if c != b {
      AncestorTransitive(a, b, c.prev);
    }
  }

  /** The ancestors of one token form a chain. */
  lemma {:induction false} AncestorsOfOneAreComparable(a: Token, b: Token, t: Token)
    requires AncestorOrSelf(a, t) && AncestorOrSelf(b, t)
    ensures AncestorOrSelf(a, b) || AncestorOrSelf(b, a)
  {
    if t != a && t != b {
      AncestorsOfOneAreComparable(a, b, t.prev);
    }
  }

  // ----- Paths -----

  /** The tokens met on the walk from `t` back to `end`, `end` excluded, oldest first. */
  function Segment(t: Token, end: Token): (path: seq<Token>)
    requires AncestorOrSelf(end, t)
    ensures forall i :: 0 <= i < |path| ==> path[i].Tok?
  {
    if t == end then [] else Segment(t.prev, end) + [t]
  }

  lemma {:induction false} SegmentNonEmpty(t: Token, end: Token)
    requires AncestorOrSelf(end, t)
    ensures |Segment(t, end)| == Depth(t) - Depth(end)
    ensures t != end ==> Segment(t, end) != []
  {
    if t != end {
      SegmentNonEmpty(t.prev, end);
    }
  }

  /** A path cut at an intermediate ancestor is the two parts one after the other. */
  lemma {:induction false} SegmentSplits(c: Token, b: Token, a: Token)
    requires AncestorOrSelf(a, b) && AncestorOrSelf(b, c)
    ensures AncestorOrSelf(a, c)
    ensures Segment(c, a) == Segment(b, a) + Segment(c, b)
  {
    AncestorTransitive(a, b, c);
    if c != b {
      SegmentSplits(c.prev, b, a);
      AncestorDepth(b, c.prev);
      AncestorDepth(a, b);
      assert c != a;
    }
  }

  function LinkOf(t: Token): (l: Link)
    requires t.Tok?
  {
    Link(t.arc.ilabel, t.arc.olabel, t.arc.weight, t.weight - Weight(t.prev) - t.arc.weight)
  }

  function Links(path: seq<Token>): (links: seq<Link>)
    requires forall i :: 0 <= i < |path| ==> path[i].Tok?
    ensures |links| == |path|
    ensures forall i :: 0 <= i < |path| ==> links[i] == LinkOf(path[i])
  {
    seq(|path|, i requires 0 <= i < |path| => LinkOf(path[i]))
  }

  // ----- Costs -----

  function Cost(links: seq<Link>): (c: real) {
    if links == [] then 0.0
    else Cost(links[..|links| - 1]) + links[|links| - 1].graphCost + links[|links| - 1].acousticCost
  }

  lemma {:induction false} CostOfConcatenation(a: seq<Link>, b: seq<Link>)
    ensures Cost(a + b) == Cost(a) + Cost(b)
  {
    if b == [] {
      assert a + b == a;
    } else {
      assert (a + b)[..|a + b| - 1] == a + b[..|b| - 1];
      CostOfConcatenation(a, b[..|b| - 1]);
    }
  }

  /** The costs along a path telescope to the difference of the two accumulated costs. */
  lemma {:induction false} PathCostTelescopes(t: Token, end: Token)
    requires AncestorOrSelf(end, t)
    ensures Cost(Links(Segment(t, end))) == Weight(t) - Weight(end)
  {
    if t != end {
      PathCostTelescopes(t.prev, end);
      var links := Links(Segment(t, end));
      assert links[..|links| - 1] == Links(Segment(t.prev, end));
    }
  }

  function GraphCost(links: seq<Link>): (c: real) {
    if links == [] then 0.0 else GraphCost(links[..|links| - 1]) + links[|links| - 1].graphCost
  }

  function AcousticCost(links: seq<Link>): (c: real) {
    if links == [] then 0.0 else AcousticCost(links[..|links| - 1]) + links[|links| - 1].acousticCost
  }

  /** The weights of the graph's arcs on the walk from `t` back to `end`. */
  function ArcWeights(t: Token, end: Token): (w: real)
    requires AncestorOrSelf(end, t)
  {
    if t == end then 0.0 else ArcWeights(t.prev, end) + t.arc.weight
  }

  /** The words on the walk from `t` back to `end`: the output labels of its arcs that are not epsilon. */
  function WordsOnWalk(t: Token, end: Token): (words: seq<int>)
    requires AncestorOrSelf(end, t)
  {
    if t == end then [] else WordsOnWalk(t.prev, end) + if t.arc.olabel != 0 then [t.arc.olabel] else []
  }

  /** The links of a walk divide its cost: the arcs' own weights are graph cost, and the rest is acoustic cost. */
  lemma {:induction false} CostsOnWalk(t: Token, end: Token)
    requires AncestorOrSelf(end, t)
    ensures GraphCost(Links(Segment(t, end))) == ArcWeights(t, end)
    ensures AcousticCost(Links(Segment(t, end))) == Weight(t) - Weight(end) - ArcWeights(t, end)
  {
    if t != end {
      CostsOnWalk(t.prev, end);
      var links := Links(Segment(t, end));
      assert links[..|links| - 1] == Links(Segment(t.prev, end));
    }
  }

  // ----- Levels: counting emitting tokens -----

  /** The number of emitting tokens among `t` and its ancestors: the number of frames `t` has consumed. */
  function Level(t: Token): (n: nat) {
    if t.Null? then 0 else (if t.arc.ilabel != 0 then 1 else 0) + Level(t.prev)
  }

  /** The nearest emitting token among `t` and its ancestors, or `Null`. */
  function NearestEmitting(t: Token): (e: Token)
    ensures e.Tok? ==> Emitting(e) && AncestorOrSelf(e, t) && Level(e) == Level(t)
    ensures e.Null? <==> Level(t) == 0
  {
    if t.Null? || t.arc.ilabel != 0 then t else NearestEmitting(t.prev)
  }

  /** The emitting token at level `k` among `t` and its ancestors. */
  function AtLevel(t: Token, k: nat): (e: Token)
    requires 1 <= k <= Level(t)
    ensures Emitting(e) && AncestorOrSelf(e, t) && Level(e) == k
  {
    if Emitting(t) && Level(t) == k then t else AtLevel(t.prev, k)
  }

  /** Only one emitting token stands at a given level. */
  lemma {:induction false} AtLevelIsUnique(e: Token, t: Token)
    requires Emitting(e) && AncestorOrSelf(e, t)
    ensures 1 <= Level(e) <= Level(t)
    ensures AtLevel(t, Level(e)) == e
  {
    if e != t {
      AtLevelIsUnique(e, t.prev);
    }
  }

  /** One round of the level-by-level walk: from the token at level `k` to the one at level `k - 1`. */
  lemma {:induction false} WalkOneLevelDown(t: Token, k: nat)
    requires 1 <= k <= Level(t)
    ensures NearestEmitting(AtLevel(t, k).prev) == if k == 1 then Null else AtLevel(t, k - 1)
  {
    var e := AtLevel(t, k);
    var below := NearestEmitting(e.prev);
    if k > 1 {
      AncestorTransitive(e.prev, e, t);
      AncestorTransitive(below, e.prev, t);
      AtLevelIsUnique(below, t);
    }
  }
}
