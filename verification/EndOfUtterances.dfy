/** Telling from the best current hypothesis whether the utterance has ended in silence. */
module EndOfUtterances {
  import opened Basics
  import opened Tokens
  import opened Lattices
  import opened PhoneSplits
  import OnlineDecoders

  datatype Options = Options(interUttSil: nat, maxUttLen: nat)

  /** The number of silent frames asked for; the longer the utterance, the fewer. */
  function SilenceFrames(opts: Options, uttFrames: nat): (frames: nat)
    requires opts.maxUttLen > 0
  {
    opts.interUttSil / (1 + uttFrames / opts.maxUttLen)
  }

  /** How many are asked for: in the `q`-th stretch of `maxUttLen` frames, the (1 + q)-th part, rounded down. */
  lemma SilenceShrinks(opts: Options, uttFrames: nat, q: nat)
    requires opts.maxUttLen > 0 && q * opts.maxUttLen <= uttFrames < (q + 1) * opts.maxUttLen
    ensures var n := SilenceFrames(opts, uttFrames);
            n * (1 + q) <= opts.interUttSil < (n + 1) * (1 + q)
  {
    QuotientAtLeast(uttFrames, opts.maxUttLen, q);
    QuotientAtLeast(uttFrames, opts.maxUttLen, q + 1);
    assert uttFrames / opts.maxUttLen == q;
    var n := SilenceFrames(opts, uttFrames);
    QuotientAtLeast(opts.interUttSil, 1 + q, n);
    QuotientAtLeast(opts.interUttSil, 1 + q, n + 1);
  }

  /** No silence is asked for any more, and the traceback would be empty, exactly from this length on. */
  lemma NoSilenceAskedFor(opts: Options, uttFrames: nat)
    requires opts.maxUttLen > 0
    ensures SilenceFrames(opts, uttFrames) == 0 <==> uttFrames >= opts.interUttSil * opts.maxUttLen
  {
    QuotientAtLeast(uttFrames, opts.maxUttLen, opts.interUttSil);
    QuotientAtLeast(opts.interUttSil, 1 + uttFrames / opts.maxUttLen, 1);
  }

  /** The first of the cheapest tokens. */
  function Cheapest(toks: seq<Token>): (best: Token) {
    if toks == [] then Null
    else
      var before, t := Cheapest(toks[..|toks| - 1]), toks[|toks| - 1];
      if before.Null? || (t.Tok? && before.weight > t.weight) then t else before
  }

  lemma {:induction false} CheapestStandsAt(toks: seq<Token>) returns (b: nat)
    requires toks != [] && forall i :: 0 <= i < |toks| ==> toks[i].Tok?
    ensures b < |toks| && toks[b] == Cheapest(toks)
    ensures forall i :: 0 <= i < |toks| ==>
              toks[b].weight <= toks[i].weight && (i < b ==> toks[b].weight < toks[i].weight)
  {
    var n := |toks| - 1;
    b := n;
    if n > 0 {
      var before := CheapestStandsAt(toks[..n]);
      if toks[before].weight <= toks[n].weight {
        b := before;
      }
    }
  }

  /** It is the one the final traceback would choose if no active token were final. */
  lemma CheapestIsBest(g: Graph, toks: seq<Token>)
    requires toks != [] && forall i :: 0 <= i < |toks| ==> toks[i].Tok? && !OnlineDecoders.IsFinal(g, toks[i])
    ensures OnlineDecoders.IsBest(g, toks, Cheapest(toks))
  {
    var b := CheapestStandsAt(toks);
  }

  /** The transition ids that the traceback of `frames` frames from `best` yields. */
  ghost function TracedIds(g: Graph, best: Token, frames: nat): (ids: seq<int>)
    requires Recent(best, frames) != []
  {
    TransitionIds(Links(Kept(g, Recent(best, frames))))
  }

  /** They are those of the last `frames` frames, or of all frames if there are fewer, unless the oldest of them
      stands on an arc into the start state: then that one is missing. */
  lemma TracedIdsAreTheLast(g: Graph, best: Token, frames: nat)
    requires best.Tok? && frames > 0
    ensures Recent(best, frames) != []
    ensures TracedIds(g, best, frames) == Last(Alignment(best), frames) <==>
            !(Recent(best, frames)[0].arc.nextstate == g.start && Recent(best, frames)[0].arc.ilabel != 0)
  {
    var path := Recent(best, frames);
    var links := Links(path);
    RecentAlignment(best, frames);
    if path[0].arc.nextstate == g.start {
      assert Links(Kept(g, path)) == links[1..];
      if path[0].arc.ilabel == 0 {
        DropLeadingEpsilon(links);
      } else {
        DropLeadingEmitting(links);
      }
    }
  }

  lemma {:induction false} DropLeadingEmitting(links: seq<Link>)
    requires links != [] && links[0].ilabel != 0
    ensures |TransitionIds(links[1..])| + 1 == |TransitionIds(links)|
  {
    if |links| == 1 {
      assert links[1..] == [];
      assert links[..|links| - 1] == [];
    } else {
      assert links[1..][..|links[1..]| - 1] == links[..|links| - 1][1..];
      DropLeadingEmitting(links[..|links| - 1]);
    }
  }

  /** The cheapest active token, or `Null` if none is active. */
  method CheapestToken(toks: seq<Token>) returns (best: Token)
    requires forall i :: 0 <= i < |toks| ==> toks[i].Tok?
    ensures best == Cheapest(toks) && (toks != [] ==> best.Tok?)
  {
    best := Null;
    for i := 0 to |toks|
      invariant best == Cheapest(toks[..i])
      invariant i > 0 ==> best.Tok?
    {
      assert toks[..i + 1][..i] == toks[..i];
      if best == Null || best.weight > toks[i].weight {
        best := toks[i];
      }
    }
    assert toks[..|toks|] == toks;
  }

  /** Looks only at the first transition of each phone of the split. */
  method AllSilence(tm: TransitionModel, split: seq<seq<int>>, silence: set<int>) returns (all: bool)
    requires forall k :: 0 <= k < |split| ==> split[k] != []
    ensures all <==> forall k :: 0 <= k < |split| ==> tm.Phone(split[k][0]) in silence
  {
    for i := 0 to |split|
      invariant forall k :: 0 <= k < i ==> tm.Phone(split[k][0]) in silence
    {
      var phone := tm.Phone(split[i][0]);
      if phone !in silence {
        return false;
      }
    }
    return true;
  }

  /** One transition speaks for its phone. */
  lemma FirstSpeaksForAll(tm: TransitionModel, split: seq<seq<int>>, silence: set<int>)
    requires forall k :: 0 <= k < |split| ==>
               split[k] != [] && forall j :: 0 <= j < |split[k]| ==> tm.Phone(split[k][j]) == tm.Phone(split[k][0])
    ensures (forall k :: 0 <= k < |split| ==> tm.Phone(split[k][0]) in silence) <==>
            (forall i :: 0 <= i < |Concat(split)| ==> tm.Phone(Concat(split)[i]) in silence)
  {
    InConcat(split, (id: int) => tm.Phone(id) in silence);
  }

  /** The answer is yes exactly when every traced transition is of a silence phone. */
  method EndOfUtterance(g: Graph, toks: seq<Token>, opts: Options, uttFrames: nat, silence: set<int>,
                        tm: TransitionModel)
    returns (ended: bool)
    requires forall i :: 0 <= i < |toks| ==> toks[i].Tok?
    requires opts.maxUttLen > 0 && (toks != [] ==> uttFrames < opts.interUttSil * opts.maxUttLen)
    requires toks != [] && Recent(Cheapest(toks), SilenceFrames(opts, uttFrames)) != [] ==>
               var ids := TracedIds(g, Cheapest(toks), SilenceFrames(opts, uttFrames));
               LoopsDoNotMeet(tm, ids) && LoopsStay(tm, ids, Reordered(tm, ids))
    ensures toks == [] ==> ended
    ensures toks != [] ==> Recent(Cheapest(toks), SilenceFrames(opts, uttFrames)) != []
    ensures toks != [] ==>
              (ended <==>
               var ids := TracedIds(g, Cheapest(toks), SilenceFrames(opts, uttFrames));
               forall i :: 0 <= i < |ids| ==> tm.Phone(ids[i]) in silence)
  {
    NoSilenceAskedFor(opts, uttFrames);
    var silFrm := opts.interUttSil / (1 + uttFrames / opts.maxUttLen);
    var best := CheapestToken(toks);
    if best == Null {
      return true;
    }
    var trace := TracebackNFrames(g, best, silFrm);
    LinksOfLinear(Links(Kept(g, Recent(best, silFrm))), FinalWeight(g, best));
    var isymbols := TransitionIds(LinksOf(trace));
    var split, _ := SplitToPhones(tm, isymbols);
    FirstSpeaksForAll(tm, split, silence);
    ended := AllSilence(tm, split, silence);
  }
}
