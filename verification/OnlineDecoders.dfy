/** The online decoder: the `Decode` loop over the search, and the tracebacks. */
module OnlineDecoders {
  import opened Basics
  import opened Tokens
  import opened Lattices
  import opened Utterances
  import opened Decodables

  // ----- The search the decoder is built on -----

  /** The search of the base class, by the active tokens its two steps leave.  The first argument numbers the
      steps of a run, so that a step may depend on anything, the adapted beam included. */
  datatype Search = Search(emitting: (nat, seq<Token>, Row) -> seq<Token>, nonemitting: (nat, seq<Token>) -> seq<Token>)

  /** A frame is consumed: new tokens on emitting arcs out of the tokens that were active. */
  ghost predicate EmittingStep(before: seq<Token>, after: seq<Token>) {
    && after != []
    && forall i :: 0 <= i < |after| ==> Emitting(after[i]) && after[i].prev in before
  }

  /** `t` is one of `before` or was reached from one of them along epsilon arcs. */
  predicate EpsilonReached(before: seq<Token>, t: Token) {
    t in before || (t.Tok? && t.arc.ilabel == 0 && EpsilonReached(before, t.prev))
  }

  ghost predicate NonemittingStep(before: seq<Token>, after: seq<Token>) {
    && after != []
    && forall i :: 0 <= i < |after| ==> EpsilonReached(before, after[i])
  }

  ghost predicate Lawful(search: Search) {
    && (forall k: nat, before, row :: before != [] ==> EmittingStep(before, search.emitting(k, before, row)))
    && (forall k: nat, before :: before != [] ==> NonemittingStep(before, search.nonemitting(k, before)))
  }

  /** The active tokens that the search leaves when it has run over the scored rows, from `toks` on. */
  function Searched(search: Search, step: nat, toks: seq<Token>, scored: seq<Scored>): (after: seq<Token>) {
    if scored == [] then toks
    else
      var n := |scored| - 1;
      var before := Searched(search, step, toks, scored[..n]);
      search.nonemitting(step + 2 * n + 1, search.emitting(step + 2 * n, before, scored[n].row))
  }

  lemma SearchedOneMore(search: Search, step: nat, toks: seq<Token>, scored: seq<Scored>, next: Scored)
    ensures var n, before := |scored|, Searched(search, step, toks, scored);
            Searched(search, step, toks, scored + [next])
            == search.nonemitting(step + 2 * n + 1, search.emitting(step + 2 * n, before, next.row))
  {
    assert (scored + [next])[..|scored|] == scored;
  }

  /** A call of the search, step by step: `sets` holds the active tokens before it and after each of its steps, which
      are a non-emitting one and then, for each scored row, an emitting and a non-emitting one. */
  ghost predicate StepByStep(search: Search, step: nat, sets: seq<seq<Token>>, scored: seq<Scored>) {
    && |sets| == 2 * |scored| + 2
    && sets[1] == search.nonemitting(step, sets[0])
    && forall i :: 0 <= i < |scored| ==>
         && sets[2 * i + 2] == search.emitting(step + 2 * i + 1, sets[2 * i + 1], scored[i].row)
         && sets[2 * i + 3] == search.nonemitting(step + 2 * i + 2, sets[2 * i + 2])
  }

  /** Such a call leads from `before` to `after`. */
  ghost predicate Leads(search: Search, step: nat, before: seq<Token>, scored: seq<Scored>, after: seq<Token>) {
    exists sets :: StepByStep(search, step, sets, scored) && sets[0] == before && sets[2 * |scored| + 1] == after
  }

  lemma {:induction false} StepsOf(search: Search, step: nat, before: seq<Token>, scored: seq<Scored>)
    returns (sets: seq<seq<Token>>)
    ensures StepByStep(search, step, sets, scored) && sets[0] == before
  {
    if scored == [] {
      sets := [before, search.nonemitting(step, before)];
    } else {
      var n := |scored| - 1;
      var earlier := StepsOf(search, step, before, scored[..n]);
      var emitted := search.emitting(step + 2 * n + 1, earlier[2 * n + 1], scored[n].row);
      sets := earlier + [emitted, search.nonemitting(step + 2 * n + 2, emitted)];
      assert forall i :: 0 <= i < n ==> scored[..n][i] == scored[i];
    }
  }

  /** After `k` rows any such call has the active tokens that the search leaves. */
  lemma {:induction false} StepsAreDetermined(search: Search, step: nat, sets: seq<seq<Token>>, scored: seq<Scored>,
                                              k: nat)
    requires StepByStep(search, step, sets, scored) && k <= |scored|
    ensures sets[2 * k + 1] == Searched(search, step + 1, search.nonemitting(step, sets[0]), scored[..k])
  {
    if k > 0 {
      StepsAreDetermined(search, step, sets, scored, k - 1);
      assert scored[..k][..k - 1] == scored[..k - 1];
      assert scored[k - 1].row == scored[..k][k - 1].row;
    }
  }

  /** The search leaves exactly the active tokens that a call step by step leads to. */
  lemma SearchedStepByStep(search: Search, step: nat, before: seq<Token>, scored: seq<Scored>, after: seq<Token>)
    ensures Leads(search, step, before, scored, after) <==>
              after == Searched(search, step + 1, search.nonemitting(step, before), scored)
  {
    assert scored[..|scored|] == scored;
    var steps := StepsOf(search, step, before, scored);
    StepsAreDetermined(search, step, steps, scored, |scored|);
    forall sets | StepByStep(search, step, sets, scored) && sets[0] == before
      ensures sets[2 * |scored| + 1] == Searched(search, step + 1, search.nonemitting(step, before), scored)
    {
      StepsAreDetermined(search, step, sets, scored, |scored|);
    }
  }

  lemma SearchLeads(search: Search, step: nat, before: seq<Token>, scored: seq<Scored>)
    ensures Leads(search, step, before, scored,
                  Searched(search, step + 1, search.nonemitting(step, before), scored))
  {
    SearchedStepByStep(search, step, before, scored,
                       Searched(search, step + 1, search.nonemitting(step, before), scored));
  }

  /** In particular a call that scores a row ends with the emitting step on it and a non-emitting step. */
  lemma EndsNonemitting(search: Search, step: nat, before: seq<Token>, scored: seq<Scored>, after: seq<Token>)
    returns (earlier: seq<Token>)
    requires Leads(search, step, before, scored, after) && scored != []
    ensures var n := |scored|;
            after == search.nonemitting(step + 2 * n, search.emitting(step + 2 * n - 1, earlier, scored[n - 1].row))
  {
    var sets :| StepByStep(search, step, sets, scored) && sets[0] == before && sets[2 * |scored| + 1] == after;
    var i := |scored| - 1;
    earlier := sets[2 * i + 1];
    assert sets[2 * i + 2] == search.emitting(step + 2 * i + 1, earlier, scored[i].row);
  }

  /** All active tokens have consumed `level` frames and descend from `root`. */
  ghost predicate Active(toks: seq<Token>, root: Token, level: nat) {
    forall i :: 0 <= i < |toks| ==> toks[i].Tok? && AncestorOrSelf(root, toks[i]) && Level(toks[i]) == level
  }

  lemma EmittingStepKeepsActive(before: seq<Token>, after: seq<Token>, root: Token, level: nat)
    requires Active(before, root, level) && EmittingStep(before, after)
    ensures Active(after, root, level + 1)
  {
    forall i | 0 <= i < |after|
      ensures AncestorOrSelf(root, after[i]) && Level(after[i]) == level + 1
    {
      var j :| 0 <= j < |before| && before[j] == after[i].prev;
    }
  }

  lemma {:induction false} EpsilonKeepsActive(before: seq<Token>, t: Token, root: Token, level: nat)
    requires Active(before, root, level) && EpsilonReached(before, t)
    ensures Active([t], root, level)
  {
    if t !in before {
      EpsilonKeepsActive(before, t.prev, root, level);
      assert [t.prev][0] == t.prev;
    }
  }

  lemma NonemittingStepKeepsActive(before: seq<Token>, after: seq<Token>, root: Token, level: nat)
    requires Active(before, root, level) && NonemittingStep(before, after)
    ensures Active(after, root, level)
  {
    forall i | 0 <= i < |after|
      ensures after[i].Tok? && AncestorOrSelf(root, after[i]) && Level(after[i]) == level
    {
      EpsilonKeepsActive(before, after[i], root, level);
      assert [after[i]][0] == after[i];
    }
  }

  // ----- Common ancestors of the active tokens -----

  /** An emitting token that every active token descends from. */
  ghost predicate CommonEmitting(e: Token, toks: seq<Token>) {
    Emitting(e) && forall i :: 0 <= i < |toks| ==> AncestorOrSelf(e, toks[i])
  }

  /** The most recent one: every other common emitting ancestor is an ancestor of it. */
  ghost predicate DeepestCommon(e: Token, toks: seq<Token>) {
    CommonEmitting(e, toks) && forall c :: CommonEmitting(c, toks) ==> AncestorOrSelf(c, e)
  }

  /** The emitting ancestors of the active tokens at level `k`. */
  ghost function LevelSet(toks: seq<Token>, k: nat, level: nat): (s: set<Token>)
    requires 1 <= k <= level
    requires forall i :: 0 <= i < |toks| ==> Level(toks[i]) == level
  {
    set i | 0 <= i < |toks| :: AtLevel(toks[i], k)
  }

  /** A level with a single emitting ancestor gives a common one, the only one at that level. */
  lemma SingletonLevelIsCommon(toks: seq<Token>, k: nat, level: nat, e: Token)
    requires 1 <= k <= level
    requires forall i :: 0 <= i < |toks| ==> Level(toks[i]) == level
    requires LevelSet(toks, k, level) == {e}
    ensures CommonEmitting(e, toks) && Level(e) == k
  {
    assert e in LevelSet(toks, k, level);
    forall i | 0 <= i < |toks|
      ensures AncestorOrSelf(e, toks[i])
    {
      assert AtLevel(toks[i], k) in LevelSet(toks, k, level);
    }
  }

  /** Where the emitting ancestors differ there is no common one. */
  lemma CommonMeansSingletonLevel(toks: seq<Token>, k: nat, level: nat, e: Token)
    requires 1 <= k <= level && toks != []
    requires forall i :: 0 <= i < |toks| ==> Level(toks[i]) == level
    requires CommonEmitting(e, toks) && Level(e) == k
    ensures LevelSet(toks, k, level) == {e}
  {
    forall i | 0 <= i < |toks|
      ensures AtLevel(toks[i], k) == e
    {
      AtLevelIsUnique(e, toks[i]);
    }
    assert AtLevel(toks[0], k) in LevelSet(toks, k, level);
  }

  lemma OnlyElement<T>(s: set<T>, x: T)
    requires x in s && |s| == 1
    ensures s == {x}
  {
    assert |s - {x}| == 0;
  }

  /** One round of the walk: the nearest emitting ancestors of all tokens of a level. */
  method PreviousLevel(emitting: set<Token>, ghost toks: seq<Token>, ghost k: nat, ghost level: nat)
    returns (prevEmitting: set<Token>)
    requires 1 <= k <= level
    requires forall i :: 0 <= i < |toks| ==> Level(toks[i]) == level
    requires emitting == LevelSet(toks, k, level)
    ensures prevEmitting == if k == 1 then {} else LevelSet(toks, k - 1, level)
  {
    prevEmitting := {};
    var rest := emitting;
    ghost var done: set<Token> := {};
    while rest != {}
      invariant done + rest == emitting && done !! rest
      invariant forall t :: t in done ==> (k > 1 ==> NearestEmitting(t.prev) in prevEmitting)
      invariant forall p :: p in prevEmitting ==> p.Tok? && exists t :: t in done && p == NearestEmitting(t.prev)
      decreases rest
    {
      var it :| it in rest;
      rest := rest - {it};
      done := done + {it};
      ghost var i :| 0 <= i < |toks| && it == AtLevel(toks[i], k);
      var prevToken := it.prev;
      while prevToken != Null && prevToken.arc.ilabel == 0
        invariant NearestEmitting(prevToken) == NearestEmitting(it.prev)
        decreases Depth(prevToken)
      {
        prevToken := prevToken.prev;
      }
      WalkOneLevelDown(toks[i], k);
      if prevToken != Null {
        prevEmitting := prevEmitting + {prevToken};
      }
    }
    NextLevelSet(emitting, prevEmitting, toks, k, level);
  }

  lemma NextLevelSet(emitting: set<Token>, prevEmitting: set<Token>, toks: seq<Token>, k: nat, level: nat)
    requires 1 <= k <= level
    requires forall i :: 0 <= i < |toks| ==> Level(toks[i]) == level
    requires emitting == LevelSet(toks, k, level)
    requires forall t :: t in emitting ==> (k > 1 ==> NearestEmitting(t.prev) in prevEmitting)
    requires forall p :: p in prevEmitting ==> p.Tok? && exists t :: t in emitting && p == NearestEmitting(t.prev)
    ensures prevEmitting == if k == 1 then {} else LevelSet(toks, k - 1, level)
  {
    forall p | p in prevEmitting
      ensures k > 1 && p in LevelSet(toks, k - 1, level)
    {
      var t :| t in emitting && p == NearestEmitting(t.prev);
      var i :| 0 <= i < |toks| && t == AtLevel(toks[i], k);
      WalkOneLevelDown(toks[i], k);
    }
    if k > 1 {
      forall p | p in LevelSet(toks, k - 1, level)
        ensures p in prevEmitting
      {
        var i :| 0 <= i < |toks| && p == AtLevel(toks[i], k - 1);
        WalkOneLevelDown(toks[i], k);
        assert AtLevel(toks[i], k) in emitting;
      }
    }
  }

  /** A common emitting ancestor no deeper one is known of is the deepest. */
  lemma DeepestByLevel(toks: seq<Token>, e: Token)
    requires toks != [] && CommonEmitting(e, toks)
    requires forall c :: CommonEmitting(c, toks) ==> Level(c) <= Level(e)
    ensures DeepestCommon(e, toks)
  {
    forall c | CommonEmitting(c, toks)
      ensures AncestorOrSelf(c, e)
    {
      AncestorsOfOneAreComparable(c, e, toks[0]);
      if AncestorOrSelf(e, c) {
        AtLevelIsUnique(e, c);
        AtLevelIsUnique(c, c);
      }
    }
  }

  /** The nearest emitting ancestors of the active tokens. */
  method FirstLevel(toks: seq<Token>, ghost level: nat) returns (emitting: set<Token>)
    requires forall i :: 0 <= i < |toks| ==> Level(toks[i]) == level
    requires level > 0
    ensures emitting == LevelSet(toks, level, level)
  {
    emitting := {};
    for i := 0 to |toks|
      invariant emitting == set j | 0 <= j < i :: AtLevel(toks[j], level)
    {
      var tok := toks[i];
      while tok.arc.ilabel == 0
        invariant tok.Tok? && Level(tok) == level
        invariant AtLevel(tok, level) == AtLevel(toks[i], level)
        decreases Depth(tok)
      {
        tok := tok.prev;
      }
      emitting := emitting + {tok};
    }
  }

  /** The walk has come down to level `k`: `emitting` is that level, and no common emitting ancestor is deeper. */
  ghost predicate Narrowed(toks: seq<Token>, emitting: set<Token>, k: nat, level: nat)
    requires k <= level
    requires forall i :: 0 <= i < |toks| ==> Level(toks[i]) == level
  {
    && emitting == (if k == 0 then {} else LevelSet(toks, k, level))
    && (toks != [] ==> forall c :: CommonEmitting(c, toks) ==> Level(c) <= k)
  }

  /** The token the immortal token is to become, or `Null` to leave it. */
  ghost predicate IsLastCommon(toks: seq<Token>, theOne: Token) {
    if toks != [] && exists c :: CommonEmitting(c, toks) then DeepestCommon(theOne, toks) else theOne == Null
  }

  lemma NarrowedAtFirst(toks: seq<Token>, level: nat)
    requires forall i :: 0 <= i < |toks| ==> Level(toks[i]) == level
    requires level > 0
    ensures Narrowed(toks, LevelSet(toks, level, level), level, level)
  {
    forall c | toks != [] && CommonEmitting(c, toks)
      ensures Level(c) <= level
    {
      AtLevelIsUnique(c, toks[0]);
    }
  }

  lemma NarrowedToOne(toks: seq<Token>, emitting: set<Token>, k: nat, level: nat, e: Token)
    requires k <= level
    requires forall i :: 0 <= i < |toks| ==> Level(toks[i]) == level
    requires Narrowed(toks, emitting, k, level) && e in emitting && |emitting| == 1
    ensures IsLastCommon(toks, e)
  {
    OnlyElement(emitting, e);
    SingletonLevelIsCommon(toks, k, level, e);
    if toks != [] {
      DeepestByLevel(toks, e);
    }
  }

  lemma LevelSetNonEmpty(toks: seq<Token>, level: nat)
    requires toks != []
    requires forall i :: 0 <= i < |toks| ==> Level(toks[i]) == level
    ensures forall k :: 1 <= k <= level ==> LevelSet(toks, k, level) != {}
  {
    forall k | 1 <= k <= level
      ensures LevelSet(toks, k, level) != {}
    {
      assert AtLevel(toks[0], k) in LevelSet(toks, k, level);
    }
  }

  lemma NarrowedToNone(toks: seq<Token>, k: nat, level: nat)
    requires k <= level
    requires forall i :: 0 <= i < |toks| ==> Level(toks[i]) == level
    requires Narrowed(toks, {}, k, level)
    ensures IsLastCommon(toks, Null)
  {
    if toks != [] {
      assert k == 0 by {
        LevelSetNonEmpty(toks, level);
      }
      assert forall c :: !CommonEmitting(c, toks);
    }
  }

  lemma NarrowsFurther(toks: seq<Token>, emitting: set<Token>, k: nat, level: nat)
    requires k <= level
    requires forall i :: 0 <= i < |toks| ==> Level(toks[i]) == level
    requires Narrowed(toks, emitting, k, level) && |emitting| > 1
    ensures k > 0
    ensures toks != [] ==> forall c :: CommonEmitting(c, toks) ==> Level(c) <= k - 1
  {
    forall c | toks != [] && CommonEmitting(c, toks)
      ensures Level(c) <= k - 1
    {
      if Level(c) == k {
        CommonMeansSingletonLevel(toks, k, level, c);
      }
    }
  }

  /** Walks from the active tokens down the levels of emitting ancestors until one token is left.  All active
      tokens stand at the same level, so they run out of ancestors together. */
  method LastCommonToken(toks: seq<Token>, ghost level: nat) returns (theOne: Token)
    requires forall i :: 0 <= i < |toks| ==> Level(toks[i]) == level
    requires level > 0
    ensures IsLastCommon(toks, theOne)
  {
    var emitting := FirstLevel(toks, level);
    ghost var k: nat := level;
    NarrowedAtFirst(toks, level);
    while true
      invariant k <= level && Narrowed(toks, emitting, k, level)
      decreases k
    {
      if |emitting| == 1 {
        theOne :| theOne in emitting;
        NarrowedToOne(toks, emitting, k, level, theOne);
        return;
      }
      if |emitting| == 0 {
        NarrowedToNone(toks, k, level);
        return Null;
      }
      NarrowsFurther(toks, emitting, k, level);
      emitting := PreviousLevel(emitting, toks, k, level);
      k := k - 1;
    }
  }

  /** A new last common token comes after the old immortal token, which is the dummy token or common itself. */
  lemma LastCommonMovesForward(g: Graph, toks: seq<Token>, immortal: Token, theOne: Token)
    requires toks != [] && DeepestCommon(theOne, toks)
    requires IsDummy(g, immortal) || Emitting(immortal)
    requires forall i :: 0 <= i < |toks| ==> AncestorOrSelf(immortal, toks[i])
    ensures AncestorOrSelf(immortal, theOne)
  {
    if Emitting(immortal) {
      assert CommonEmitting(immortal, toks);
    } else {
      AncestorsOfOneAreComparable(immortal, theOne, toks[0]);
    }
  }

  /** What it means that `immortal` is up to date: no common emitting ancestor is more recent. */
  ghost predicate UpToDate(toks: seq<Token>, immortal: Token) {
    && (Emitting(immortal) ==> CommonEmitting(immortal, toks))
    && forall c :: CommonEmitting(c, toks) ==> AncestorOrSelf(c, immortal)
  }

  lemma DeepestIsUnique(toks: seq<Token>, a: Token, b: Token)
    requires DeepestCommon(a, toks) && DeepestCommon(b, toks)
    ensures a == b
  {
    AncestorDepth(a, b);
    AncestorDepth(b, a);
  }

  /** The immortal token after an update: the deepest common emitting token, if the active tokens have one. */
  ghost function NextImmortal(immortal: Token, toks: seq<Token>): (next: Token)
    ensures (exists e :: DeepestCommon(e, toks)) ==> DeepestCommon(next, toks)
    ensures !(exists e :: DeepestCommon(e, toks)) ==> next == immortal
  {
    if exists e :: DeepestCommon(e, toks) then
      var e :| DeepestCommon(e, toks);
      e
    else immortal
  }

  /** The cuts after a partial traceback. */
  ghost function NextCuts(cuts: seq<Token>, toks: seq<Token>): (next: seq<Token>)
    requires cuts != []
  {
    var immortal := cuts[|cuts| - 1];
    if NextImmortal(immortal, toks) == immortal then cuts else cuts + [NextImmortal(immortal, toks)]
  }

  // ----- The best token -----

  /** The cost final tokens are compared by. */
  function FinalCost(g: Graph, t: Token): (c: real)
    requires IsFinal(g, t)
  {
    t.weight + g.finals[t.arc.nextstate]
  }

  predicate IsFinal(g: Graph, t: Token) {
    t.Tok? && t.arc.nextstate in g.finals
  }

  /** `best` is the first cheapest of the final active tokens, or of all of them when none is final. */
  ghost predicate IsBest(g: Graph, toks: seq<Token>, best: Token) {
    if exists i :: 0 <= i < |toks| && IsFinal(g, toks[i]) then
      exists b :: 0 <= b < |toks| && toks[b] == best && IsFinal(g, best)
        && forall i :: 0 <= i < |toks| && IsFinal(g, toks[i]) ==>
             FinalCost(g, best) <= FinalCost(g, toks[i]) && (i < b ==> FinalCost(g, best) < FinalCost(g, toks[i]))
    else
      exists b :: 0 <= b < |toks| && toks[b] == best
        && forall i :: 0 <= i < |toks| ==>
             Weight(best) <= Weight(toks[i]) && (i < b ==> Weight(best) < Weight(toks[i]))
  }

  /** The costs on the arcs of the path from `dummy` to `t`. */
  ghost function PathCost(dummy: Token, t: Token): (c: real)
    requires AncestorOrSelf(dummy, t)
  {
    Cost(Links(Segment(t, dummy)))
  }

  /** Among the paths from `dummy` to active tokens that end in a final state of the graph, that of `best` is a cheapest
      one with the final cost of its last state added, and those before it are dearer; if no path ends in a final
      state, the same of all of them without final costs. */
  ghost predicate Optimal(g: Graph, dummy: Token, toks: seq<Token>, best: Token) {
    && (forall i :: 0 <= i < |toks| ==> toks[i].Tok? && AncestorOrSelf(dummy, toks[i]))
    && exists b :: 0 <= b < |toks| && toks[b] == best &&
         if exists i :: 0 <= i < |toks| && toks[i].arc.nextstate in g.finals then
           && best.arc.nextstate in g.finals
           && forall i :: 0 <= i < |toks| && toks[i].arc.nextstate in g.finals ==>
                var cost := PathCost(dummy, best) + g.finals[best.arc.nextstate];
                var other := PathCost(dummy, toks[i]) + g.finals[toks[i].arc.nextstate];
                cost <= other && (i < b ==> cost < other)
         else
           forall i :: 0 <= i < |toks| ==>
             && PathCost(dummy, best) <= PathCost(dummy, toks[i])
             && (i < b ==> PathCost(dummy, best) < PathCost(dummy, toks[i]))
  }

  /** The best token is the end of an optimal path, and the other way round. */
  lemma BestIsOptimal(g: Graph, dummy: Token, toks: seq<Token>, best: Token)
    requires IsDummy(g, dummy) && forall i :: 0 <= i < |toks| ==> toks[i].Tok? && AncestorOrSelf(dummy, toks[i])
    ensures IsBest(g, toks, best) <==> Optimal(g, dummy, toks, best)
  {
    forall i | 0 <= i < |toks|
      ensures PathCost(dummy, toks[i]) == toks[i].weight
    {
      PathCostTelescopes(toks[i], dummy);
    }
  }

  method ReachedFinal(g: Graph, toks: seq<Token>) returns (r: bool)
    ensures r <==> exists i :: 0 <= i < |toks| && IsFinal(g, toks[i])
  {
    for i := 0 to |toks|
      invariant forall j :: 0 <= j < i ==> !IsFinal(g, toks[j])
    {
      if IsFinal(g, toks[i]) {
        return true;
      }
    }
    return false;
  }

  lemma AllDescend(g: Graph, cuts: seq<Token>, toks: seq<Token>)
    requires Chain(g, cuts) && forall i :: 0 <= i < |toks| ==> AncestorOrSelf(cuts[|cuts| - 1], toks[i])
    ensures IsDummy(g, cuts[0]) && forall i :: 0 <= i < |toks| ==> AncestorOrSelf(cuts[0], toks[i])
  {
    ChainFromDummy(g, cuts);
    ChainStarts(g, cuts);
    forall i | 0 <= i < |toks|
      ensures AncestorOrSelf(cuts[0], toks[i])
    {
      AncestorTransitive(cuts[0], cuts[|cuts| - 1], toks[i]);
    }
  }

  method BestToken(g: Graph, toks: seq<Token>) returns (best: Token)
    requires forall i :: 0 <= i < |toks| ==> toks[i].Tok?
    ensures toks == [] ==> best == Null
    ensures toks != [] ==> best in toks && IsBest(g, toks, best)
  {
    best := Null;
    ghost var b := 0;
    var isFinal := ReachedFinal(g, toks);
    if !isFinal {
      for i := 0 to |toks|
        invariant i == 0 ==> best == Null
        invariant i > 0 ==> 0 <= b < i && toks[b] == best
        invariant forall j :: 0 <= j < i ==>
                    Weight(best) <= Weight(toks[j]) && (j < b ==> Weight(best) < Weight(toks[j]))
      {
        if best == Null || best.weight > toks[i].weight {
          best := toks[i];
          b := i;
        }
      }
    } else {
      for i := 0 to |toks|
        invariant best == Null ==> forall j :: 0 <= j < i ==> !IsFinal(g, toks[j])
        invariant best != Null ==> 0 <= b < i && toks[b] == best && IsFinal(g, best)
        invariant best != Null ==> forall j :: 0 <= j < i && IsFinal(g, toks[j]) ==>
                    FinalCost(g, best) <= FinalCost(g, toks[j])
                        && (j < b ==> FinalCost(g, best) < FinalCost(g, toks[j]))
      {
        if IsFinal(g, toks[i]) && (best == Null || FinalCost(g, toks[i]) < FinalCost(g, best)) {
          best := toks[i];
          b := i;
        }
      }
    }
  }

  /** With batches still to load, not every frame has been loaded. */
  lemma MoreToLoad(batches: seq<Batch>, consumed: nat)
    requires consumed < |batches| && NoEmptyBatch(batches)
    ensures Offset(batches, consumed) < StreamLength(batches)
  {
    OffsetMonotonic(batches, consumed + 1, |batches|);
  }

  datatype DecodeState = EndFeats | EndUtt | EndBatch

  /** Where decoding starts from: what has been loaded, the next frame, and the decoder's search and log. */
  datatype Start = Start(consumed: nat, frame: nat, steps: nat, toks: seq<Token>, uttLog: seq<Scored>, uttFrames: nat)

  /** From `start` to `now` exactly `scored` has been scored: consecutive frames of the stream, on which the search has
      run.  A frame on which the end was forced is not counted. */
  ghost predicate Progressed(search: Search, batches: seq<Batch>, start: Start, now: Start, scored: seq<Scored>,
                             forced: bool)
  {
    && Advance(batches, start.consumed, start.frame, now.consumed, now.frame, forced, scored)
    && now.toks == Searched(search, start.steps, start.toks, scored) && now.steps == start.steps + 2 * |scored|
    && now.uttLog == start.uttLog + scored
    && (forced ==> scored != [])
    && now.uttFrames == start.uttFrames + if forced then |scored| - 1 else |scored|
  }

  lemma ProgressedOneMore(search: Search, batches: seq<Batch>, start: Start, before: Start, scored: seq<Scored>,
                          now: Start, next: Scored, forced: bool)
    requires Progressed(search, batches, start, before, scored, false)
    requires before.frame < StreamLength(batches) && next == Scored(before.frame, Stream(batches)[before.frame])
    requires now.consumed == before.consumed
             || (now.consumed == before.consumed + 1 <= |batches| && before.frame == Offset(batches, before.consumed))
    requires forced <==> now.consumed == before.consumed + 1 && batches[now.consumed - 1].endsSpeech
    requires now.frame == if forced then before.frame else before.frame + 1
    requires now.toks == search.nonemitting(before.steps + 1, search.emitting(before.steps, before.toks, next.row))
    requires now.steps == before.steps + 2 && now.uttLog == before.uttLog + [next]
    requires now.uttFrames == if forced then before.uttFrames else before.uttFrames + 1
    ensures Progressed(search, batches, start, now, scored + [next], forced)
  {
    AdvanceOneFrame(batches, start.consumed, start.frame, before.consumed, before.frame, scored, now.consumed, forced);
    SearchedOneMore(search, start.steps, start.toks, scored, next);
    Associative(start.uttLog, scored, [next]);
  }

  class OnlineFasterDecoder {
    const graph: Graph
    const search: Search
    const batchSize: nat

    var toks: seq<Token>
    var immortalTok: Token
    var prevImmortalTok: Token
    var state: DecodeState
    var frame: nat
    var uttFrames: nat
    var forcingEndUtt: bool

    /** Counts the search steps taken and the dummy tokens made. */
    var steps: nat

    /** The cuts made in the current utterance and the frames it has scored. */
    ghost var cuts: seq<Token>
    ghost var uttLog: seq<Scored>

    constructor (graph: Graph, search: Search, batchSize: nat)
      ensures this.graph == graph && this.search == search && this.batchSize == batchSize
      ensures state == EndFeats && frame == 0 && !forcingEndUtt
    {
      this.graph, this.search, this.batchSize := graph, search, batchSize;
      toks, immortalTok, prevImmortalTok := [], Null, Null;
      state, frame, uttFrames, forcingEndUtt, steps := EndFeats, 0, 0, false, 0;
      cuts, uttLog := [], [];
    }

    /** The invariant of an utterance in progress. */
    ghost predicate Tracing()
      reads `immortalTok, `prevImmortalTok, `toks, `cuts, `uttLog
    {
      && Chain(graph, cuts)
      && immortalTok == cuts[|cuts| - 1]
      && AncestorOrSelf(prevImmortalTok, immortalTok)
      && (if |cuts| == 1 then prevImmortalTok == immortalTok else Emitting(immortalTok))
      && Active(toks, immortalTok, |uttLog|)
    }

    method ResetDecoder(full: bool)
      modifies this
      ensures Tracing() && toks == [Dummy(graph, steps)] && cuts == toks && uttLog == []
      ensures immortalTok == prevImmortalTok == toks[0] == Tok(steps, Arc(0, 0, 0.0, graph.start), 0.0, Null)
      ensures steps == old(steps)
      ensures frame == if full then 0 else old(frame)
      ensures uttFrames == 0 && forcingEndUtt == old(forcingEndUtt) && state == old(state)
    {
      var dummy := Dummy(graph, steps);
      toks := [dummy];
      immortalTok := dummy;
      prevImmortalTok := dummy;
      uttFrames := 0;
      if full {
        frame := 0;
      }
      cuts, uttLog := [dummy], [];
    }

    method ProcessNonemitting()
      requires Lawful(search)
      requires Tracing() && toks != []
      modifies this`toks, this`steps
      ensures Tracing() && toks != []
      ensures toks == search.nonemitting(old(steps), old(toks)) && steps == old(steps) + 1
    {
      NonemittingStepKeepsActive(toks, search.nonemitting(steps, toks), immortalTok, |uttLog|);
      toks := search.nonemitting(steps, toks);
      steps := steps + 1;
    }

    /** How the frame counter and the loaded batches fit together. */
    ghost predicate InStep(decodable: OnlineDecodable)
      reads `frame, decodable
    {
      decodable.Valid() && decodable.featOffset <= frame <= decodable.Loaded()
    }

    /** The emitting step on the row of `frame`. */
    method ExtendTokens(row: Row)
      requires Lawful(search) && Tracing() && toks != []
      modifies this`toks, this`steps, this`uttLog
      ensures Tracing() && toks != []
      ensures toks == search.emitting(old(steps), old(toks), row) && steps == old(steps) + 1
      ensures uttLog == old(uttLog) + [Scored(frame, row)]
    {
      EmittingStepKeepsActive(toks, search.emitting(steps, toks, row), immortalTok, |uttLog|);
      toks := search.emitting(steps, toks, row);
      steps := steps + 1;
      uttLog := uttLog + [Scored(frame, row)];
    }

    /** One frame of the search: it asks for the likelihoods of `frame` and extends the active tokens. */
    method ProcessEmitting(decodable: OnlineDecodable) returns (ghost row: Row)
      requires Lawful(search) && WellFormed(decodable.batches) && NoEmptyBatch(decodable.batches)
      requires Tracing() && toks != [] && InStep(decodable) && !forcingEndUtt
      requires frame < StreamLength(decodable.batches)
      modifies this`toks, this`steps, this`forcingEndUtt, this`uttLog, decodable
      ensures Tracing() && toks != [] && decodable.Valid()
      ensures decodable.featOffset <= frame < decodable.Loaded()
      ensures row == Stream(decodable.batches)[frame]
      ensures toks == search.emitting(old(steps), old(toks), row) && steps == old(steps) + 1
      ensures uttLog == old(uttLog) + [Scored(frame, row)]
      ensures decodable.consumed == old(decodable.consumed) + if frame == old(decodable.Loaded()) then 1 else 0
      ensures forcingEndUtt <==>
                frame == old(decodable.Loaded()) && decodable.batches[decodable.consumed - 1].endsSpeech
      ensures forcingEndUtt ==> frame == decodable.featOffset
    {
      var response, forcing := decodable.LogLikelihood(frame);
      if forcing {
        forcingEndUtt := true;
      }
      row := response.row;
      ExtendTokens(response.row);
    }

    /** The states in which `Decode` may be called: at the start, after a forced end, and after a full batch. */
    ghost predicate Ready(decodable: OnlineDecodable)
      reads this, decodable
    {
      && InStep(decodable)
      && !forcingEndUtt
      && match state
         case EndFeats => decodable.consumed == 0 && !decodable.finished
         case EndUtt =>
           && decodable.consumed > 0 && frame == decodable.featOffset
           && decodable.batches[decodable.consumed - 1].endsSpeech
         case EndBatch =>
           && Tracing() && toks != [] && decodable.consumed > 0 && 0 < frame < StreamLength(decodable.batches)
    }

    /** The one situation in which `Decode` scores nothing: the end was forced on frame 0 and the only batch
        has been loaded, so that `IsLastFrame(-1)` already holds. */
    ghost predicate Stranded(decodable: OnlineDecodable)
      reads this, decodable
    {
      state == EndUtt && frame == 0 && decodable.finished
    }

    /** The source follows `prev_` without a check at first, so every active token must have consumed a frame. */
    method UpdateImmortalToken()
      requires forall i :: 0 <= i < |toks| ==> Level(toks[i]) == |uttLog|
      requires |uttLog| > 0
      modifies this`immortalTok, this`prevImmortalTok
      ensures if toks != [] && exists c :: CommonEmitting(c, toks)
              then DeepestCommon(immortalTok, toks) && prevImmortalTok == old(immortalTok)
              else unchanged(this)
    {
      var theOne := LastCommonToken(toks, |uttLog|);
      if theOne != Null {
        prevImmortalTok := immortalTok;
        immortalTok := theOne;
      }
    }

    /** Prints the path from the previous immortal token to the new one.  With active tokens the answer is yes
        exactly when the immortal token moved, and then strictly forward.  Without active tokens nothing is
        updated, so the last piece is printed once more if there was one. */
    method PartialTraceback() returns (moved: bool, out: Lattice)
      requires Tracing() && |uttLog| > 0
      modifies this`immortalTok, this`prevImmortalTok, this`cuts
      ensures toks != [] ==> Tracing() && UpToDate(toks, immortalTok)
      ensures toks != [] ==> (moved <==> immortalTok != old(immortalTok))
      ensures toks != [] ==> AncestorOrSelf(old(immortalTok), immortalTok)
      ensures toks != [] ==> cuts == if moved then old(cuts) + [immortalTok] else old(cuts)
      ensures toks != [] ==> cuts == NextCuts(old(cuts), toks)
      ensures toks != [] && moved ==>
                out == Linear(Piece(graph, immortalTok, old(immortalTok)), FinalWeight(graph, immortalTok))
      ensures toks != [] && moved ==> prevImmortalTok == old(immortalTok)
      ensures toks == [] ==> unchanged(this)
      ensures moved <==> immortalTok != prevImmortalTok
      ensures toks == [] && moved ==>
                out == Linear(Piece(graph, immortalTok, prevImmortalTok), FinalWeight(graph, immortalTok))
    {
      out := EMPTY;
      ghost var updated := toks != [] && exists c :: CommonEmitting(c, toks);
      assert toks != [] && |cuts| > 1 ==> CommonEmitting(immortalTok, toks);
      UpdateImmortalToken();
      if updated {
        assert DeepestCommon(immortalTok, toks);
        LastCommonMovesForward(graph, toks, old(immortalTok), immortalTok);
        DeepestIsUnique(toks, immortalTok, NextImmortal(old(immortalTok), toks));
      }
      assert AncestorOrSelf(prevImmortalTok, immortalTok);
      moved := immortalTok != prevImmortalTok;
      if moved {
        ChainFromDummy(graph, cuts);
        assert immortalTok.Tok?;
        out := MakeLattice(graph, immortalTok, prevImmortalTok);
        if toks != [] {
          ChainExtends(graph, cuts, immortalTok);
          cuts := cuts + [immortalTok];
        }
      }
    }

    /** Asked again after every hypothesis has been dropped, it repeats its last answer, with the same piece. */
    method AskAgainWithoutTokens() returns (moved: bool, out: Lattice, again: bool, outAgain: Lattice)
      requires Tracing() && toks != [] && |uttLog| > 0
      modifies this`immortalTok, this`prevImmortalTok, this`cuts, this`toks
      ensures AncestorOrSelf(old(immortalTok), immortalTok)
      ensures moved <==> immortalTok != old(immortalTok)
      ensures moved ==> out == Linear(Piece(graph, immortalTok, old(immortalTok)), FinalWeight(graph, immortalTok))
      ensures again <==> moved
      ensures moved ==> outAgain == out
    {
      moved, out := PartialTraceback();
      toks := [];
      again, outAgain := PartialTraceback();
    }

    /** Prints the path from the last immortal token to the best active token, or nothing without active tokens. */
    method FinishTraceBack() returns (out: Lattice, ghost best: Token)
      requires Tracing() && (toks != [] ==> Level(immortalTok) < |uttLog|)
      ensures toks == [] ==> best == Null && out == EMPTY
      ensures toks != [] ==> best in toks && IsBest(graph, toks, best) && Level(best) == |uttLog|
      ensures toks != [] ==> Optimal(graph, cuts[0], toks, best)
      ensures toks != [] ==> Chain(graph, cuts + [best])
      ensures toks != [] ==> out == Linear(Piece(graph, best, immortalTok), FinalWeight(graph, best))
      ensures toks != [] ==> WritesOut(out, graph, Kept(graph, Segment(best, immortalTok)), best)
    {
      var bestTok := BestToken(graph, toks);
      best := bestTok;
      if toks != [] {
        ChainExtends(graph, cuts, best);
        AllDescend(graph, cuts, toks);
        BestIsOptimal(graph, cuts[0], toks, best);
      }
      out := MakeLattice(graph, bestTok, immortalTok);
    }

    /** When `Decode` goes on, there is a frame to score; when it stops for the features' sake, there is none. */
    lemma LastFrameSeen(decodable: OnlineDecodable)
      requires WellFormed(decodable.batches) && NoEmptyBatch(decodable.batches)
      requires InStep(decodable)
      ensures frame <= StreamLength(decodable.batches)
      ensures decodable.IsLastFrame(frame - 1) <==>
              frame == StreamLength(decodable.batches) || (frame == 0 && decodable.finished)
    {
      MoreToLoad(decodable.batches, 0);
      decodable.LoadedIsStreamed();
      decodable.IsLastFrameMeaning(frame - 1);
      if !decodable.finished {
        MoreToLoad(decodable.batches, decodable.consumed);
      }
    }

    /** Scores `frame` and leaves the frame counter on the next frame, unless the end of the utterance is
        forced: then the counter stays. */
    method ScoreFrame(decodable: OnlineDecodable) returns (forced: bool, ghost row: Row)
      requires Lawful(search) && WellFormed(decodable.batches) && NoEmptyBatch(decodable.batches)
      requires Tracing() && toks != [] && InStep(decodable) && !forcingEndUtt
      requires frame < StreamLength(decodable.batches)
      modifies this`toks, this`steps, this`forcingEndUtt, this`uttLog, this`frame, this`uttFrames, decodable
      ensures Tracing() && toks != [] && InStep(decodable) && !forcingEndUtt
      ensures row == Stream(decodable.batches)[old(frame)]
      ensures toks == search.nonemitting(old(steps) + 1, search.emitting(old(steps), old(toks), row))
      ensures steps == old(steps) + 2
      ensures uttLog == old(uttLog) + [Scored(old(frame), row)]
      ensures decodable.consumed == old(decodable.consumed) + if old(frame) == old(decodable.Loaded()) then 1 else 0
      ensures forced <==>
                old(frame) == old(decodable.Loaded()) && decodable.batches[decodable.consumed - 1].endsSpeech
      ensures frame == if forced then old(frame) else old(frame) + 1
      ensures uttFrames == if forced then old(uttFrames) else old(uttFrames) + 1
      ensures forced ==> frame == decodable.featOffset
    {
      row := ProcessEmitting(decodable);
      ProcessNonemitting();
      forced := forcingEndUtt;
      forcingEndUtt := false;
      if !forced {
        frame := frame + 1;
        uttFrames := uttFrames + 1;
      }
    }

    /** Since `start` exactly `scored` has been scored: consecutive frames of the stream, on which the search has
        run.  A frame on which the end was forced is not counted. */
    ghost predicate Progress(decodable: OnlineDecodable, start: Start, scored: seq<Scored>, forced: bool)
      reads this, decodable
    {
      Progressed(search, decodable.batches, start, Now(decodable), scored, forced)
    }

    ghost function Now(decodable: OnlineDecodable): (start: Start)
      reads this, decodable
    {
      Start(decodable.consumed, frame, steps, toks, uttLog, uttFrames)
    }

    /** Where a call of `Decode` starts from: a new utterance starts from the dummy token and an empty log. */
    ghost function Begun(decodable: OnlineDecodable): (start: Start)
      reads this, decodable
    {
      if state == EndBatch
      then Start(decodable.consumed, frame, steps + 1, search.nonemitting(steps, toks), uttLog, uttFrames)
      else Start(decodable.consumed, frame, steps + 1, search.nonemitting(steps, [Dummy(graph, steps)]), [], 0)
    }

    /** One turn of the loop of `Decode`. */
    method ScoreNext(decodable: OnlineDecodable, ghost start: Start, ghost scored: seq<Scored>)
      returns (forced: bool, ghost next: Scored)
      requires Lawful(search) && WellFormed(decodable.batches) && NoEmptyBatch(decodable.batches)
      requires Tracing() && toks != [] && InStep(decodable) && !forcingEndUtt
      requires !decodable.IsLastFrame(frame - 1)
      requires Progress(decodable, start, scored, false)
      modifies this`toks, this`steps, this`forcingEndUtt, this`uttLog, this`frame, this`uttFrames, decodable
      ensures Tracing() && toks != [] && InStep(decodable) && !forcingEndUtt
      ensures Progress(decodable, start, scored + [next], forced)
      ensures forced || frame > 0
    {
      decodable.LoadedIsStreamed();
      LastFrameSeen(decodable);
      ghost var before := Now(decodable);
      ghost var row;
      forced, row := ScoreFrame(decodable);
      next := Scored(before.frame, row);
      ProgressedOneMore(search, decodable.batches, start, before, scored, Now(decodable), next, forced);
    }

    /** What the loop of `Decode` leaves behind, when the end has not been forced. */
    method StateAfter(decodable: OnlineDecodable, batchFrame: nat) returns (result: DecodeState)
      requires WellFormed(decodable.batches) && NoEmptyBatch(decodable.batches) && InStep(decodable)
      requires decodable.IsLastFrame(frame - 1) || batchFrame == batchSize
      ensures result == if decodable.IsLastFrame(frame - 1) then EndFeats else EndBatch
      ensures result == EndBatch ==> batchFrame == batchSize
      ensures frame == StreamLength(decodable.batches) ==> result == EndFeats
      ensures result == EndFeats ==>
                decodable.finished && (frame == StreamLength(decodable.batches) || (frame == 0 && decodable.finished))
    {
      LastFrameSeen(decodable);
      if batchFrame == batchSize && !decodable.IsLastFrame(frame - 1) {
        result := EndBatch;
      } else {
        result := EndFeats;
      }
    }

    /** The loop of `Decode`.  On frame 0 with the input exhausted it stops before it has scored anything. */
    method DecodeBatch(decodable: OnlineDecodable) returns (result: DecodeState, ghost scored: seq<Scored>)
      requires Lawful(search) && batchSize > 0
      requires WellFormed(decodable.batches) && NoEmptyBatch(decodable.batches)
      requires Tracing() && toks != [] && InStep(decodable) && !forcingEndUtt
      modifies this`toks, this`steps, this`forcingEndUtt, this`uttLog, this`frame, this`uttFrames, decodable
      ensures Tracing() && toks != [] && InStep(decodable) && !forcingEndUtt
      ensures Progress(decodable, old(Now(decodable)), scored, result == EndUtt)
      ensures |scored| <= batchSize && (result == EndBatch ==> |scored| == batchSize)
      ensures if old(frame) == 0 && old(decodable.finished)
              then result == EndFeats && scored == []
              else result == EndFeats <==> frame == StreamLength(decodable.batches)
      ensures result == EndFeats ==> decodable.finished
      ensures old(frame) < StreamLength(decodable.batches) && !(old(frame) == 0 && old(decodable.finished)) ==>
                scored != []
    {
      ghost var start, stranded := Now(decodable), frame == 0 && decodable.finished;
      scored := [];
      var batchFrame := 0;
      decodable.LoadedIsStreamed();
      LastFrameSeen(decodable);
      while !decodable.IsLastFrame(frame - 1) && batchFrame < batchSize
        invariant Tracing() && toks != [] && InStep(decodable) && !forcingEndUtt
        invariant batchFrame == |scored| <= batchSize
        invariant if stranded then frame == 0 && decodable.finished && scored == [] && decodable.IsLastFrame(frame - 1)
                  else frame > 0 || !decodable.finished
        invariant Progress(decodable, start, scored, false)
        invariant scored == [] ==> decodable.IsLastFrame(frame - 1) == old(decodable.IsLastFrame(frame - 1))
        decreases batchSize - batchFrame
      {
        ghost var next;
        var forced;
        forced, next := ScoreNext(decodable, start, scored);
        scored := scored + [next];
        if forced {
          return EndUtt, scored;
        }
        batchFrame := batchFrame + 1;
      }
      result := StateAfter(decodable, batchFrame);
    }

    /** The beginning of `Decode`: a new utterance, unless the last call ended with a full batch. */
    method Begin(decodable: OnlineDecodable)
      requires Lawful(search) && WellFormed(decodable.batches) && NoEmptyBatch(decodable.batches)
      requires Ready(decodable)
      modifies this
      ensures Tracing() && toks != [] && InStep(decodable) && !forcingEndUtt
      ensures cuts == if old(state) == EndBatch then old(cuts) else [Dummy(graph, old(steps))]
      ensures Now(decodable) == old(Begun(decodable))
      ensures frame < StreamLength(decodable.batches)
      ensures frame == 0 && decodable.finished <==> old(Stranded(decodable))
    {
      decodable.LoadedIsStreamed();
      MoreToLoad(decodable.batches, 0);
      if state == EndFeats || state == EndUtt {
        ResetDecoder(state == EndFeats);
      }
      ProcessNonemitting();
    }

    /** Begins a call and runs its loop. */
    method BeginAndDecode(decodable: OnlineDecodable) returns (ghost scored: seq<Scored>)
      requires Lawful(search) && batchSize > 0
      requires WellFormed(decodable.batches) && NoEmptyBatch(decodable.batches)
      requires Ready(decodable)
      modifies this, decodable
      ensures Returned(decodable, scored)
      ensures cuts == if old(state) == EndBatch then old(cuts) else [Dummy(graph, old(steps))]
      ensures Progress(decodable, old(Begun(decodable)), scored, state == EndUtt)
      ensures if old(Stranded(decodable))
              then state == EndFeats && scored == []
              else scored != [] && (state == EndFeats <==> frame == StreamLength(decodable.batches))
    {
      Begin(decodable);
      state, scored := DecodeBatch(decodable);
    }

    /** The state a call of `Decode` leaves. */
    ghost predicate Returned(decodable: OnlineDecodable, scored: seq<Scored>)
      reads this, decodable
    {
      && Tracing() && toks != [] && InStep(decodable)
      && (state != EndFeats ==> Ready(decodable))
      && |scored| <= batchSize && (state == EndBatch ==> |scored| == batchSize)
      && (state == EndFeats ==> decodable.finished)
    }

    /** Decodes up to `batchSize` frames.  Every call goes on where the last one stopped and scores at least one
        frame; it answers `EndUtt` exactly when it has loaded a batch that ended the speech, and otherwise
        `EndFeats` exactly when no frame is left.  The one exception is a stranded decoder: it scores nothing and
        answers `EndFeats` all the same.  Step by step, the search goes on from the active tokens of the last call or,
        for a new utterance, from a dummy. */
    method Decode(decodable: OnlineDecodable) returns (result: DecodeState, ghost scored: seq<Scored>)
      requires Lawful(search) && batchSize > 0
      requires WellFormed(decodable.batches) && NoEmptyBatch(decodable.batches)
      requires Ready(decodable)
      modifies this, decodable
      ensures result == state && Returned(decodable, scored)
      ensures cuts == if old(state) == EndBatch then old(cuts) else [Dummy(graph, old(steps))]
      ensures Progress(decodable, old(Begun(decodable)), scored, result == EndUtt)
      ensures Leads(search, old(steps), old(if state == EndBatch then toks else [Dummy(graph, steps)]), scored, toks)
      ensures steps == old(steps) + 1 + 2 * |scored|
      ensures if old(Stranded(decodable))
              then result == EndFeats && scored == []
              else scored != [] && (result == EndFeats <==> frame == StreamLength(decodable.batches))
    {
      ghost var step, before := steps, if state == EndBatch then toks else [Dummy(graph, steps)];
      scored := BeginAndDecode(decodable);
      result := state;
      SearchLeads(search, step, before, scored);
    }
  }
}
