/** What a session should do is fixed by the search and the batches: there is one list of utterances, and one list of
    results. */
module Determinacy {
  import opened Basics
  import opened Tokens
  import opened Decodables
  import opened OnlineDecoders
  import opened Sessions

  /** The best token is one. */
  lemma BestIsUnique(g: Graph, toks: seq<Token>, a: Token, b: Token)
    requires IsBest(g, toks, a) && IsBest(g, toks, b)
    ensures a == b
  {
  }

  // ----- Calls -----

  function NumCalls(calls: Calls): (n: nat) {
    match calls
    case NoCall => 0
    case Call(before, _) => NumCalls(before) + 1
  }

  lemma {:induction false} FullLength(d: Setup, calls: Calls)
    requires AllFull(d, calls)
    ensures |ScoredIn(calls)| == NumCalls(calls) * d.batchSize
  {
    if calls.Call? {
      FullLength(d, calls.before);
      OneFactorMore(NumCalls(calls.before), d.batchSize);
    }
  }

  /** Concatenations with last parts of one length agree part by part. */
  lemma LastPartsAgree<T>(a: seq<T>, x: seq<T>, b: seq<T>, y: seq<T>)
    requires a + x == b + y && |x| == |y|
    ensures a == b && x == y
  {
    Appended(a, x);
    Appended(b, y);
  }

  lemma {:induction false} FullCallsAreDetermined(d: Setup, a: Calls, b: Calls)
    requires AllFull(d, a) && AllFull(d, b) && d.batchSize > 0 && ScoredIn(a) == ScoredIn(b)
    ensures a == b
  {
    FullLength(d, a);
    FullLength(d, b);
    if a.Call? && b.Call? {
      LastPartsAgree(ScoredIn(a.before), a.scored, ScoredIn(b.before), b.scored);
      FullCallsAreDetermined(d, a.before, b.before);
    }
  }

  /** A length is cut into full parts and a last one in one way. */
  lemma LastLength(m: nat, n: nat, r: nat, q: nat, size: nat)
    requires m * size + r == n * size + q && 0 < r <= size && 0 < q <= size
    ensures r == q
  {
    OneFactorMore(m, size);
    OneFactorMore(n, size);
    if m < n {
      MultiplyMonotonic(m + 1, n, size);
    } else if n < m {
      MultiplyMonotonic(n + 1, m, size);
    }
  }

  lemma CallsAreDetermined(d: Setup, a: Calls, b: Calls)
    requires a.Call? && AllFull(d, a.before) && 0 < |a.scored| <= d.batchSize
    requires b.Call? && AllFull(d, b.before) && 0 < |b.scored| <= d.batchSize
    requires ScoredIn(a) == ScoredIn(b)
    ensures a == b
  {
    FullLength(d, a.before);
    FullLength(d, b.before);
    LastLength(NumCalls(a.before), NumCalls(b.before), |a.scored|, |b.scored|, d.batchSize);
    LastPartsAgree(ScoredIn(a.before), a.scored, ScoredIn(b.before), b.scored);
    FullCallsAreDetermined(d, a.before, b.before);
  }

  // ----- Utterances -----

  /** What has been scored ends with the frame the next utterance begins with. */
  lemma EndsWithNextFirst(d: Setup, batches: seq<Batch>, step0: nat, us: seq<Utterance>, step: nat, last: nat)
    requires Follow(d, batches, step0, us, step, last)
    ensures if us == [] then AllScored(us) == [] && last == 0
            else AllScored(us) != [] && AllScored(us)[|AllScored(us)| - 1].frame == last
  {
    if us != [] {
      var u := us[|us| - 1];
      assert |ScoredIn(u.calls)| > 0;
      assert ScoredIn(u.calls)[|ScoredIn(u.calls)| - 1] == Consecutive(batches, u.first, last + 1)[last - u.first];
    }
  }

  /** Where a shorter run begins inside a run of consecutive frames, the frame before it is one less. */
  lemma InsideARun(before: seq<Scored>, run: seq<Scored>, before': seq<Scored>, run': seq<Scored>)
    requires before + run == before' + run' && run != [] && |run'| > |run|
    requires forall i :: 0 <= i < |run'| ==> run'[i].frame == run'[0].frame + i
    ensures before != [] && before[|before| - 1].frame + 1 == run[0].frame
  {
    var all, n := before + run, |before|;
    assert all[n] == run[0] && all[n - 1] == before[n - 1];
    var k := n - |before'|;
    assert all[n] == run'[k] && all[n - 1] == run'[k - 1];
  }

  /** `run` lists consecutive frames from `first` on, and what was scored before ends with that frame, too. */
  ghost predicate Continues(before: seq<Scored>, run: seq<Scored>, first: nat) {
    && run != []
    && (forall i :: 0 <= i < |run| ==> run[i].frame == first + i)
    && (before != [] ==> before[|before| - 1].frame == first)
  }

  lemma NoLongerRun(before: seq<Scored>, run: seq<Scored>, first: nat, before': seq<Scored>, run': seq<Scored>,
                    first': nat)
    requires before + run == before' + run' && Continues(before, run, first) && Continues(before', run', first')
    ensures |run'| <= |run|
  {
    if |run'| > |run| {
      InsideARun(before, run, before', run');
    }
  }

  /** There is one way to split off the last run. */
  lemma LastRunIsDetermined(before: seq<Scored>, run: seq<Scored>, first: nat, before': seq<Scored>, run': seq<Scored>,
                            first': nat)
    requires before + run == before' + run' && Continues(before, run, first) && Continues(before', run', first')
    ensures before == before' && run == run' && first == first'
  {
    NoLongerRun(before, run, first, before', run', first');
    NoLongerRun(before', run', first', before, run, first);
    LastPartsAgree(before, run, before', run');
    assert run[0].frame == first && run'[0].frame == first';
  }

  lemma LastUtteranceContinues(d: Setup, batches: seq<Batch>, step0: nat, before: seq<Utterance>, u: Utterance,
                               last: nat)
    requires Follow(d, batches, step0, before, u.step, u.first)
    requires Spans(batches, u.first, u.calls, last + 1) && ScoredIn(u.calls) != []
    ensures Continues(AllScored(before), ScoredIn(u.calls), u.first)
  {
    EndsWithNextFirst(d, batches, step0, before, u.step, u.first);
  }

  lemma FinishedIsDetermined(d: Setup, u: Utterance, u': Utterance)
    requires Finished(d, u) && Finished(d, u') && u.step == u'.step && u.first == u'.first
    requires ScoredIn(u.calls) == ScoredIn(u'.calls)
    ensures u == u'
  {
    CallsAreDetermined(d, u.calls, u'.calls);
    var n, n' := |u.cuts| - 1, |u'.cuts| - 1;
    BestIsUnique(d.graph, ActiveAfter(d, u.step, u.calls), u.cuts[n], u'.cuts[n']);
    SplitLast(u.cuts);
    SplitLast(u'.cuts);
  }

  /** Two ways to divide what was scored into utterances that follow one another are the same. */
  lemma {:induction false} UtterancesAreDetermined(d: Setup, batches: seq<Batch>, step0: nat, us: seq<Utterance>,
                                                   step: nat, last: nat, us': seq<Utterance>, step': nat, last': nat)
    requires Follow(d, batches, step0, us, step, last) && Follow(d, batches, step0, us', step', last')
    requires AllScored(us) == AllScored(us')
    ensures us == us' && step == step'
    decreases |us|
  {
    EndsWithNextFirst(d, batches, step0, us, step, last);
    EndsWithNextFirst(d, batches, step0, us', step', last');
    if us != [] && us' != [] {
      var before, u := us[..|us| - 1], us[|us| - 1];
      var before', u' := us'[..|us'| - 1], us'[|us'| - 1];
      LastUtteranceContinues(d, batches, step0, before, u, last);
      LastUtteranceContinues(d, batches, step0, before', u', last');
      LastRunIsDetermined(AllScored(before), ScoredIn(u.calls), u.first,
                          AllScored(before'), ScoredIn(u'.calls), u'.first);
      UtterancesAreDetermined(d, batches, step0, before, u.step, u.first, before', u'.step, u'.first);
      FinishedIsDetermined(d, u, u');
      SplitLast(us);
      SplitLast(us');
    }
  }

  /** Whatever meets the contract of a session sends the same results. */
  lemma SessionIsDetermined(d: Setup, batches: seq<Batch>, step0: nat, us: seq<Utterance>, step: nat, last: nat,
                            us': seq<Utterance>, step': nat, last': nat)
    requires Follow(d, batches, step0, us, step, last) && Follow(d, batches, step0, us', step', last')
    requires AllScored(us) == ScoringOrder(batches) == AllScored(us')
    ensures AllOutputs(d, us) == AllOutputs(d, us') && us == us'
  {
    UtterancesAreDetermined(d, batches, step0, us, step, last, us', step', last');
  }
}
