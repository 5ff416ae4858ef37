/** What an online decoding session should do, told in terms of the search and of the feature batches alone. */
module Sessions {
  import opened Basics
  import opened Tokens
  import opened Utterances
  import opened Decodables
  import opened OnlineDecoders

  /** What a session is set up with. */
  datatype Setup = Setup(graph: Graph, search: Search, batchSize: nat)

  // ----- Utterances, call by call -----

  /** What the calls of `Decode` scored, from the beginning of an utterance on. */
  datatype Calls = NoCall | Call(before: Calls, scored: seq<Scored>)

  /** An utterance: the search step it began at, its first frame, its calls, and its cuts, the last one being the
      token its final traceback started from. */
  datatype Utterance = Utterance(step: nat, first: nat, calls: Calls, cuts: seq<Token>)

  function ScoredIn(calls: Calls): (scored: seq<Scored>) {
    match calls
    case NoCall => []
    case Call(before, scored) => ScoredIn(before) + scored
  }

  /** The search step reached: a call takes one non-emitting step, and two steps a frame. */
  function StepAfter(step: nat, calls: Calls): (after: nat) {
    match calls
    case NoCall => step
    case Call(before, scored) => StepAfter(step, before) + 1 + 2 * |scored|
  }

  /** The active tokens a call leaves. */
  function ActiveAfterCall(d: Setup, step: nat, toks: seq<Token>, scored: seq<Scored>): (after: seq<Token>) {
    Searched(d.search, step + 1, d.search.nonemitting(step, toks), scored)
  }

  /** The active tokens after these calls, from the dummy token on. */
  function ActiveAfter(d: Setup, step: nat, calls: Calls): (toks: seq<Token>) {
    match calls
    case NoCall => [Dummy(d.graph, step)]
    case Call(before, scored) => ActiveAfterCall(d, StepAfter(step, before), ActiveAfter(d, step, before), scored)
  }

  /** The cuts after these calls, each followed by a partial traceback: every traceback moves the immortal token to
      the deepest common emitting token of the tokens then active, if there is one. */
  ghost function CutsAfter(d: Setup, step: nat, calls: Calls): (cuts: seq<Token>)
    ensures cuts != []
  {
    match calls
    case NoCall => [Dummy(d.graph, step)]
    case Call(before, _) => NextCuts(CutsAfter(d, step, before), ActiveAfter(d, step, calls))
  }

  /** Every call has scored a full batch. */
  predicate AllFull(d: Setup, calls: Calls) {
    match calls
    case NoCall => true
    case Call(before, scored) => AllFull(d, before) && |scored| == d.batchSize
  }

  /** A finished utterance: all calls but the last scored full batches, and the last one at least a frame.  The cuts
      are those of the partial tracebacks and, at last, the best of the tokens active at its end, which has consumed
      exactly the frames scored. */
  ghost predicate Finished(d: Setup, u: Utterance) {
    && u.calls.Call? && AllFull(d, u.calls.before) && 0 < |u.calls.scored| <= d.batchSize
    && Chain(d.graph, u.cuts) && |u.cuts| > 1
    && u.cuts[..|u.cuts| - 1] == CutsAfter(d, u.step, u.calls.before)
    && IsBest(d.graph, ActiveAfter(d, u.step, u.calls), u.cuts[|u.cuts| - 1])
    && Level(u.cuts[|u.cuts| - 1]) == |ScoredIn(u.calls)|
  }

  /** The calls of an utterance scored the consecutive frames of the stream from `first` up to, not including, `end`. */
  ghost predicate Spans(batches: seq<Batch>, first: nat, calls: Calls, end: nat) {
    first <= end <= StreamLength(batches) && ScoredIn(calls) == Consecutive(batches, first, end)
  }

  /** Utterances that follow one another from the start of the stream and from search step `step0` on.  They leave
      the search at `step`, and `last` is the last frame scored, the one the next utterance has to begin with. */
  ghost predicate Follow(d: Setup, batches: seq<Batch>, step0: nat, us: seq<Utterance>, step: nat, last: nat) {
    if us == [] then step == step0 && last == 0
    else
      var before, u := us[..|us| - 1], us[|us| - 1];
      && Follow(d, batches, step0, before, u.step, u.first)
      && Finished(d, u) && Spans(batches, u.first, u.calls, last + 1)
      && step == StepAfter(u.step, u.calls)
  }

  function AllScored(us: seq<Utterance>): (scored: seq<Scored>) {
    if us == [] then [] else AllScored(us[..|us| - 1]) + ScoredIn(us[|us| - 1].calls)
  }

  /** The search has been led to `toks` call by call, each call going on step by step from where the one before it left
      the search, and the first one from a dummy token. */
  ghost predicate CallsLead(d: Setup, step: nat, calls: Calls, toks: seq<Token>) {
    match calls
    case NoCall => toks == [Dummy(d.graph, step)]
    case Call(before, scored) =>
      exists mid :: CallsLead(d, step, before, mid) && Leads(d.search, StepAfter(step, before), mid, scored, toks)
  }

  /** The tokens active after the calls are exactly those that the steps of the search lead to. */
  lemma {:induction false} ActiveStepByStep(d: Setup, step: nat, calls: Calls, toks: seq<Token>)
    ensures CallsLead(d, step, calls, toks) <==> toks == ActiveAfter(d, step, calls)
  {
    if calls.Call? {
      var before := calls.before;
      var mid := ActiveAfter(d, step, before);
      ActiveStepByStep(d, step, before, mid);
      SearchedStepByStep(d.search, StepAfter(step, before), mid, calls.scored, toks);
      forall other | CallsLead(d, step, before, other)
        ensures other == mid
      {
        ActiveStepByStep(d, step, before, other);
      }
    }
  }

  lemma {:induction false} SearchedDescends(search: Search, step: nat, toks: seq<Token>, scored: seq<Scored>,
                                            root: Token, level: nat)
    requires Lawful(search) && toks != [] && Active(toks, root, level)
    ensures Searched(search, step, toks, scored) != []
    ensures Active(Searched(search, step, toks, scored), root, level + |scored|)
  {
    if scored != [] {
      var n := |scored| - 1;
      var before := Searched(search, step, toks, scored[..n]);
      SearchedDescends(search, step, toks, scored[..n], root, level);
      var emitted := search.emitting(step + 2 * n, before, scored[n].row);
      EmittingStepKeepsActive(before, emitted, root, level + n);
      NonemittingStepKeepsActive(emitted, search.nonemitting(step + 2 * n + 1, emitted), root, level + n + 1);
    }
  }

  /** All tokens active in an utterance descend from its dummy token and have consumed the frames scored. */
  lemma {:induction false} ActiveDescends(d: Setup, step: nat, calls: Calls)
    requires Lawful(d.search)
    ensures ActiveAfter(d, step, calls) != []
    ensures Active(ActiveAfter(d, step, calls), Dummy(d.graph, step), |ScoredIn(calls)|)
  {
    if calls.Call? {
      var dummy, before, k := Dummy(d.graph, step), ActiveAfter(d, step, calls.before), StepAfter(step, calls.before);
      ActiveDescends(d, step, calls.before);
      NonemittingStepKeepsActive(before, d.search.nonemitting(k, before), dummy, |ScoredIn(calls.before)|);
      SearchedDescends(d.search, k + 1, d.search.nonemitting(k, before), calls.scored, dummy,
                       |ScoredIn(calls.before)|);
    }
  }

  lemma {:induction false} CutsStart(d: Setup, step: nat, calls: Calls)
    ensures CutsAfter(d, step, calls)[0] == Dummy(d.graph, step)
  {
    if calls.Call? {
      CutsStart(d, step, calls.before);
    }
  }

  /** The path that a finished utterance ends with is optimal among the paths to the tokens that the steps of the search
      lead to. */
  lemma FinishedIsOptimal(d: Setup, u: Utterance) returns (toks: seq<Token>)
    requires Lawful(d.search) && Finished(d, u)
    ensures CallsLead(d, u.step, u.calls, toks)
    ensures u.cuts[0] == Dummy(d.graph, u.step) && Optimal(d.graph, u.cuts[0], toks, u.cuts[|u.cuts| - 1])
  {
    toks := ActiveAfter(d, u.step, u.calls);
    ActiveStepByStep(d, u.step, u.calls, toks);
    ActiveDescends(d, u.step, u.calls);
    CutsStart(d, u.step, u.calls.before);
    BestIsOptimal(d.graph, u.cuts[0], toks, u.cuts[|u.cuts| - 1]);
  }

  // ----- Results -----

  /** A result sent to the client: the word ids of one traceback. */
  datatype Output = Output(endUtterance: bool, words: seq<int>)

  /** The word ids on a path: its non-epsilon output labels. */
  function WordIds(links: seq<Link>): (words: seq<int>) {
    if links == [] then []
    else WordIds(links[..|links| - 1]) +
         (if links[|links| - 1].olabel != 0 then [links[|links| - 1].olabel] else [])
  }

  lemma {:induction false} WordIdsOfConcatenation(a: seq<Link>, b: seq<Link>)
    ensures WordIds(a + b) == WordIds(a) + WordIds(b)
  {
    if b == [] {
      assert a + b == a;
    } else {
      assert (a + b)[..|a + b| - 1] == a + b[..|b| - 1];
      WordIdsOfConcatenation(a, b[..|b| - 1]);
    }
  }

  /** What is sent for the newest piece. */
  ghost function LastOutput(g: Graph, cuts: seq<Token>, endUtterance: bool): (output: Output)
    requires Chain(g, cuts) && |cuts| > 1
  {
    Output(endUtterance, WordIds(Piece(g, cuts[|cuts| - 1], cuts[|cuts| - 2])))
  }

  /** What is sent for the pieces between the cuts, while the utterance goes on. */
  ghost function PartialOutputs(g: Graph, cuts: seq<Token>): (outputs: seq<Output>)
    requires Chain(g, cuts)
  {
    if |cuts| == 1 then [] else PartialOutputs(g, cuts[..|cuts| - 1]) + [LastOutput(g, cuts, false)]
  }

  lemma OneCutMore(g: Graph, cuts: seq<Token>, t: Token)
    requires Chain(g, cuts) && AncestorOrSelf(cuts[|cuts| - 1], t) && t != cuts[|cuts| - 1]
    ensures Chain(g, cuts + [t]) && (cuts + [t])[..|cuts|] == cuts
    ensures LastOutput(g, cuts + [t], true) == Output(true, WordIds(Piece(g, t, cuts[|cuts| - 1])))
    ensures PartialOutputs(g, cuts + [t])
            == PartialOutputs(g, cuts) + [Output(false, WordIds(Piece(g, t, cuts[|cuts| - 1])))]
  {
    ChainExtends(g, cuts, t);
    Appended(cuts, [t]);
  }

  ghost function OutputsOf(d: Setup, u: Utterance): (outputs: seq<Output>) {
    if Finished(d, u) then PartialOutputs(d.graph, u.cuts[..|u.cuts| - 1]) + [LastOutput(d.graph, u.cuts, true)] else []
  }

  ghost function AllOutputs(d: Setup, us: seq<Utterance>): (outputs: seq<Output>) {
    if us == [] then [] else AllOutputs(d, us[..|us| - 1]) + OutputsOf(d, us[|us| - 1])
  }

  lemma {:induction false} PartialsAreOpen(g: Graph, cuts: seq<Token>)
    requires Chain(g, cuts)
    ensures |PartialOutputs(g, cuts)| == |cuts| - 1
    ensures forall i :: 0 <= i < |cuts| - 1 ==> !PartialOutputs(g, cuts)[i].endUtterance
  {
    if |cuts| > 1 {
      PartialsAreOpen(g, cuts[..|cuts| - 1]);
    }
  }

  /** An utterance has one result a cut, and the last one alone is marked as its end. */
  lemma LastResultEndsUtterance(d: Setup, u: Utterance)
    requires Finished(d, u)
    ensures |OutputsOf(d, u)| == |u.cuts| - 1
    ensures forall i :: 0 <= i < |OutputsOf(d, u)| ==> (OutputsOf(d, u)[i].endUtterance <==> i == |OutputsOf(d, u)| - 1)
  {
    var partials, last := PartialOutputs(d.graph, u.cuts[..|u.cuts| - 1]), LastOutput(d.graph, u.cuts, true);
    PartialsAreOpen(d.graph, u.cuts[..|u.cuts| - 1]);
    LastAppended(partials, last);
  }

  lemma OneUtteranceMore(d: Setup, us: seq<Utterance>, u: Utterance)
    ensures AllOutputs(d, us + [u]) == AllOutputs(d, us) + OutputsOf(d, u)
    ensures AllScored(us + [u]) == AllScored(us) + ScoredIn(u.calls)
  {
    assert (us + [u])[..|us|] == us;
  }

  lemma FollowOneMore(d: Setup, batches: seq<Batch>, step0: nat, us: seq<Utterance>, u: Utterance, last: nat)
    requires Follow(d, batches, step0, us, u.step, u.first)
    requires Finished(d, u) && Spans(batches, u.first, u.calls, last + 1)
    ensures Follow(d, batches, step0, us + [u], StepAfter(u.step, u.calls), last)
  {
    assert (us + [u])[..|us|] == us;
  }

  // ----- Words -----

  function Words(outputs: seq<Output>): (words: seq<int>) {
    if outputs == [] then [] else Words(outputs[..|outputs| - 1]) + outputs[|outputs| - 1].words
  }

  lemma WordsOneMore(outputs: seq<Output>, output: Output)
    ensures Words(outputs + [output]) == Words(outputs) + output.words
  {
    assert (outputs + [output])[..|outputs|] == outputs;
  }

  lemma PrintedGrows(g: Graph, cuts: seq<Token>, endUtterance: bool)
    requires Chain(g, cuts) && |cuts| > 1
    ensures WordIds(Printed(g, cuts))
            == WordIds(Printed(g, cuts[..|cuts| - 1])) + LastOutput(g, cuts, endUtterance).words
  {
    var n := |cuts| - 1;
    WordIdsOfConcatenation(Printed(g, cuts[..n]), Piece(g, cuts[n], cuts[n - 1]));
  }

  lemma {:induction false} PartialWords(g: Graph, cuts: seq<Token>)
    requires Chain(g, cuts)
    ensures Words(PartialOutputs(g, cuts)) == WordIds(Printed(g, cuts))
  {
    if |cuts| > 1 {
      var earlier := cuts[..|cuts| - 1];
      PartialWords(g, earlier);
      PrintedGrows(g, cuts, false);
      WordsOneMore(PartialOutputs(g, earlier), LastOutput(g, cuts, false));
    }
  }

  /** The words sent for an utterance, result after result, are the words on its printed arcs. */
  lemma WordsOfUtterance(d: Setup, u: Utterance)
    requires Finished(d, u)
    ensures Words(OutputsOf(d, u)) == WordIds(Printed(d.graph, u.cuts))
  {
    var g, earlier := d.graph, u.cuts[..|u.cuts| - 1];
    PartialWords(g, earlier);
    PrintedGrows(g, u.cuts, true);
    WordsOneMore(PartialOutputs(g, earlier), LastOutput(g, u.cuts, true));
  }

  lemma WordsOfPathGrow(g: Graph, cuts: seq<Token>)
    requires Chain(g, cuts) && |cuts| > 1
    ensures var n := |cuts| - 1;
            WordIds(Links(FullPath(g, cuts)))
            == WordIds(Links(FullPath(g, cuts[..n]))) + WordIds(Links(Segment(cuts[n], cuts[n - 1])))
  {
    var n := |cuts| - 1;
    var before, segment := FullPath(g, cuts[..n]), Segment(cuts[n], cuts[n - 1]);
    FullPathGrows(g, cuts);
    assert Links(before + segment) == Links(before) + Links(segment);
    WordIdsOfConcatenation(Links(before), Links(segment));
  }

  lemma WordsOfOne(link: Link)
    ensures WordIds([link]) == if link.olabel != 0 then [link.olabel] else []
  {
    assert [link][..0] == [];
  }

  /** The words a traceback loses with the arc it leaves out. */
  ghost function LostWords(g: Graph, cuts: seq<Token>, j: nat): (words: seq<int>)
    requires Chain(g, cuts) && 0 < j < |cuts|
  {
    if Shortened(g, cuts, j) && Oldest(g, cuts, j).arc.olabel != 0 then [Oldest(g, cuts, j).arc.olabel] else []
  }

  lemma LostWordsStay(g: Graph, cuts: seq<Token>, j: nat)
    requires Chain(g, cuts) && 0 < j < |cuts| - 1
    ensures LostWords(g, cuts, j) == LostWords(g, cuts[..|cuts| - 1], j)
  {
    EarlierTracebacks(g, cuts, j);
  }

  lemma WordsOfTraceback(g: Graph, cuts: seq<Token>)
    requires Chain(g, cuts) && |cuts| > 1
    ensures var n := |cuts| - 1;
            WordIds(Links(Segment(cuts[n], cuts[n - 1])))
                == LostWords(g, cuts, n) + WordIds(Piece(g, cuts[n], cuts[n - 1]))
  {
    var n := |cuts| - 1;
    var piece, out := Piece(g, cuts[n], cuts[n - 1]), LeftOut(g, cuts[n], cuts[n - 1]);
    LeftOutAndPiece(g, cuts[n], cuts[n - 1]);
    WordIdsOfConcatenation(out, piece);
    LastTraceback(g, cuts);
    WordsOfOne(LinkOf(Oldest(g, cuts, n)));
  }

  /** What is lost, traceback by traceback. */
  ghost function AllLostWords(g: Graph, cuts: seq<Token>): (words: seq<int>)
    requires Chain(g, cuts)
  {
    if |cuts| == 1 then [] else AllLostWords(g, cuts[..|cuts| - 1]) + LostWords(g, cuts, |cuts| - 1)
  }

  lemma WordsOneTracebackMore(g: Graph, cuts: seq<Token>) returns (lost: seq<int>, printed: seq<int>)
    requires Chain(g, cuts) && |cuts| > 1
    ensures var earlier := cuts[..|cuts| - 1];
            && AllLostWords(g, cuts) == AllLostWords(g, earlier) + lost
            && WordIds(Printed(g, cuts)) == WordIds(Printed(g, earlier)) + printed
            && WordIds(Links(FullPath(g, cuts))) == WordIds(Links(FullPath(g, earlier))) + (lost + printed)
  {
    var n := |cuts| - 1;
    lost, printed := LostWords(g, cuts, n), WordIds(Piece(g, cuts[n], cuts[n - 1]));
    PrintedGrows(g, cuts, false);
    WordsOfPathGrow(g, cuts);
    WordsOfTraceback(g, cuts);
  }

  lemma {:induction false} PrintedAndLostWords(g: Graph, cuts: seq<Token>)
    requires Chain(g, cuts)
    ensures |WordIds(Printed(g, cuts))| + |AllLostWords(g, cuts)| == |WordIds(Links(FullPath(g, cuts)))|
    ensures AllLostWords(g, cuts) == [] ==> WordIds(Printed(g, cuts)) == WordIds(Links(FullPath(g, cuts)))
  {
    if |cuts| > 1 {
      PrintedAndLostWords(g, cuts[..|cuts| - 1]);
      var lost, printed := WordsOneTracebackMore(g, cuts);
      if AllLostWords(g, cuts) == [] {
        EmptyInside(WordIds(Printed(g, cuts[..|cuts| - 1])), lost, printed);
      }
    }
  }

  lemma {:induction false} NothingLostByGuard(g: Graph, cuts: seq<Token>)
    requires Chain(g, cuts)
    ensures AllLostWords(g, cuts) == [] <==> forall j: nat :: 0 < j < |cuts| ==> LostWords(g, cuts, j) == []
  {
    if |cuts| > 1 {
      var n := |cuts| - 1;
      NothingLostByGuard(g, cuts[..n]);
      forall j: nat | 0 < j < n
        ensures LostWords(g, cuts, j) == LostWords(g, cuts[..n], j)
      {
        LostWordsStay(g, cuts, j);
      }
    }
  }

  /** The words a reader finds on the links of a walk are those on the arcs its tokens stand on. */
  lemma {:induction false} WordsOfWalk(t: Token, end: Token)
    requires AncestorOrSelf(end, t)
    ensures WordIds(Links(Segment(t, end))) == WordsOnWalk(t, end)
  {
    if t != end {
      WordsOfWalk(t.prev, end);
      var links := Links(Segment(t, end));
      assert links[..|links| - 1] == Links(Segment(t.prev, end));
    }
  }

  /** The words on the path of an utterance, from the dummy token to the last cut. */
  ghost function WordsOnPath(g: Graph, cuts: seq<Token>): (words: seq<int>)
    requires Chain(g, cuts)
  {
    ChainFromDummy(g, cuts);
    WordsOnWalk(cuts[|cuts| - 1], cuts[0])
  }

  /** The words sent are those on the arcs of the best token's whole path if and only if no traceback leaves out an
      arc into the start state that carries a word. */
  lemma WordsOfWholePath(d: Setup, u: Utterance)
    requires Finished(d, u)
    ensures Words(OutputsOf(d, u)) == WordsOnPath(d.graph, u.cuts) <==>
              forall j: nat :: 0 < j < |u.cuts| && Shortened(d.graph, u.cuts, j) ==>
                Oldest(d.graph, u.cuts, j).arc.olabel == 0
  {
    var g, cuts := d.graph, u.cuts;
    ChainFromDummy(g, cuts);
    WordsOfWalk(cuts[|cuts| - 1], cuts[0]);
    WordsOfUtterance(d, u);
    PrintedAndLostWords(g, cuts);
    NothingLostByGuard(g, cuts);
    forall j: nat | 0 < j < |cuts|
      ensures LostWords(g, cuts, j) == [] <==> (Shortened(g, cuts, j) ==> Oldest(g, cuts, j).arc.olabel == 0)
    {
    }
  }
}
