/** The result loop of an online decoding session. */
module DecodeSessions {
  import opened Basics
  import opened Tokens
  import opened Lattices
  import opened Utterances
  import opened Decodables
  import opened OnlineDecoders
  import opened Sessions

  function SetupOf(decoder: OnlineFasterDecoder): (d: Setup) {
    Setup(decoder.graph, decoder.search, decoder.batchSize)
  }

  /** The streams on which the last call of `Decode` would be stranded: a single batch that ended the speech. */
  predicate Strands(batches: seq<Batch>) {
    |batches| == 1 && batches[0].endsSpeech
  }

  lemma OnlyFirstBatchIsAtZero(batches: seq<Batch>, k: nat)
    requires NoEmptyBatch(batches) && k <= |batches|
    ensures k > 0 ==> Offset(batches, k) > 0
  {
  }

  lemma {:induction false} LevelMonotonic(a: Token, t: Token)
    requires AncestorOrSelf(a, t)
    ensures Level(a) <= Level(t)
  {
    if a != t {
      LevelMonotonic(a, t.prev);
    }
  }

  lemma NeverStranded(decoder: OnlineFasterDecoder, decodable: OnlineDecodable)
    requires WellFormed(decodable.batches) && NoEmptyBatch(decodable.batches) && !Strands(decodable.batches)
    requires decoder.Ready(decodable)
    ensures !decoder.Stranded(decodable)
  {
    if decoder.Stranded(decodable) {
      OnlyFirstBatchIsAtZero(decodable.batches, decodable.consumed - 1);
    }
  }

  /** The next frame is one of the batch loaded last, or the first one after it. */
  ghost predicate AtBatch(batches: seq<Batch>, consumed: nat, frame: nat) {
    && consumed <= |batches|
    && if consumed == 0 then frame == 0 else Offset(batches, consumed - 1) <= frame <= Offset(batches, consumed)
  }

  /** One step of the session, seen from outside: what has been scored follows the scoring order. */
  ghost predicate Recorded(batches: seq<Batch>, consumed: nat, frame: nat, scored: seq<Scored>) {
    AtBatch(batches, consumed, frame) && frame <= StreamLength(batches) && scored == ScoredAt(batches, consumed, frame)
  }

  lemma RecordedAdvances(batches: seq<Batch>, consumed0: nat, frame0: nat, scored0: seq<Scored>,
                         consumed: nat, frame: nat, forced: bool, scored: seq<Scored>)
    requires NoEmptyBatch(batches)
    requires Recorded(batches, consumed0, frame0, scored0)
    requires Advance(batches, consumed0, frame0, consumed, frame, forced, scored)
    requires AtBatch(batches, consumed, frame)
    ensures Recorded(batches, consumed, frame, scored0 + scored)
    ensures scored != [] ==> consumed0 + frame0 < consumed + frame
    ensures consumed == |batches| && frame == StreamLength(batches) ==> scored0 + scored == ScoringOrder(batches)
  {
    AdvanceFollowsTheOrder(batches, consumed0, frame0, consumed, frame, forced, scored);
    ScoredAtEndOfBatch(batches, |batches|);
  }

  /** The decoder keeps in step with the record between calls. */
  lemma InStepOffsets(decoder: OnlineFasterDecoder, decodable: OnlineDecodable)
    requires decoder.InStep(decodable)
    ensures AtBatch(decodable.batches, decodable.consumed, decoder.frame)
  {
  }

  lemma ImmortalLevel(decoder: OnlineFasterDecoder)
    requires decoder.Tracing() && decoder.toks != []
    ensures Level(decoder.immortalTok) <= |decoder.uttLog|
    ensures |decoder.cuts| == 1 ==> Level(decoder.immortalTok) == 0
  {
    LevelMonotonic(decoder.immortalTok, decoder.toks[0]);
  }

  // ----- The account of a session -----

  /** The finished utterances; the step, the first frame and the calls of the one in progress; and what has been
      sent. */
  datatype Account = Account(utterances: seq<Utterance>, step: nat, first: nat, calls: Calls, sent: seq<Output>)

  ghost function Total(a: Account): (scored: seq<Scored>) {
    AllScored(a.utterances) + ScoredIn(a.calls)
  }

  /** The account is in order as far as the finished utterances go, and `cuts` are those of the one in progress. */
  ghost predicate Balanced(d: Setup, batches: seq<Batch>, step0: nat, a: Account, cuts: seq<Token>) {
    && Follow(d, batches, step0, a.utterances, a.step, a.first)
    && Chain(d.graph, cuts)
    && a.sent == AllOutputs(d, a.utterances) + PartialOutputs(d.graph, cuts)
  }

  /** The decoder has got where the calls of the utterance in progress should have brought it. */
  ghost predicate Current(decoder: OnlineFasterDecoder, a: Account)
    reads decoder`toks, decoder`steps, decoder`uttLog
  {
    && decoder.toks == ActiveAfter(SetupOf(decoder), a.step, a.calls)
    && decoder.steps == StepAfter(a.step, a.calls)
    && decoder.uttLog == ScoredIn(a.calls)
  }

  /** Between two turns of the loop: an utterance is in progress exactly after a full batch. */
  ghost predicate Between(decoder: OnlineFasterDecoder, decodable: OnlineDecodable, step0: nat, a: Account)
    reads decoder, decodable
  {
    var d, batches := SetupOf(decoder), decodable.batches;
    var cuts := CutsAfter(d, a.step, a.calls);
    && decoder.Ready(decodable)
    && Balanced(d, batches, step0, a, cuts)
    && AllFull(d, a.calls)
    && Recorded(batches, decodable.consumed, decoder.frame, Total(a))
    && Spans(batches, a.first, a.calls, decoder.frame)
    && if decoder.state == EndBatch
       then a.calls.Call? && Current(decoder, a) && decoder.cuts == cuts
       else a.calls.NoCall? && decoder.steps == a.step
  }

  /** After a call of `Decode`, before its result is sent. */
  ghost predicate Called(decoder: OnlineFasterDecoder, decodable: OnlineDecodable, step0: nat, a: Account)
    reads decoder, decodable
  {
    var d, batches := SetupOf(decoder), decodable.batches;
    && a.calls.Call? && AllFull(d, a.calls.before) && 0 < |a.calls.scored| <= d.batchSize
    && decoder.Tracing() && decoder.toks != [] && Level(decoder.immortalTok) < |decoder.uttLog|
    && Current(decoder, a)
    && decoder.cuts == CutsAfter(d, a.step, a.calls.before)
    && Balanced(d, batches, step0, a, decoder.cuts)
    && Recorded(batches, decodable.consumed, decoder.frame, Total(a))
    && Spans(batches, a.first, a.calls, if decoder.state == EndUtt then decoder.frame + 1 else decoder.frame)
    && match decoder.state
       case EndFeats => decoder.frame == StreamLength(batches) && Total(a) == ScoringOrder(batches)
       case EndUtt => decoder.Ready(decodable)
       case EndBatch => decoder.Ready(decodable) && |a.calls.scored| == d.batchSize
  }

  /** The session is over. */
  ghost predicate Over(decoder: OnlineFasterDecoder, batches: seq<Batch>, step0: nat, us: seq<Utterance>,
                       sent: seq<Output>)
    reads decoder
  {
    && StreamLength(batches) > 0
    && Follow(SetupOf(decoder), batches, step0, us, decoder.steps, StreamLength(batches) - 1)
    && sent == AllOutputs(SetupOf(decoder), us)
    && AllScored(us) == ScoringOrder(batches)
  }

  /** The batches and frames that are left. */
  ghost function Left(decoder: OnlineFasterDecoder, decodable: OnlineDecodable): (left: int)
    reads decoder`frame, decodable`consumed
  {
    |decodable.batches| + StreamLength(decodable.batches) - (decodable.consumed + decoder.frame)
  }

  // ----- One call of `Decode` -----

  /** One call of `Decode`, what it scored and where it has brought the search. */
  method DecodeOnce(decoder: OnlineFasterDecoder, decodable: OnlineDecodable, ghost before: seq<Scored>)
    returns (dstate: DecodeState, ghost scored: seq<Scored>)
    requires Lawful(decoder.search) && decoder.batchSize > 0
    requires WellFormed(decodable.batches) && NoEmptyBatch(decodable.batches) && !Strands(decodable.batches)
    requires decoder.Ready(decodable)
    requires Recorded(decodable.batches, decodable.consumed, decoder.frame, before)
    modifies decoder, decodable
    ensures dstate == decoder.state && decoder.Tracing() && decoder.toks != []
    ensures dstate != EndFeats ==> decoder.Ready(decodable)
    ensures decoder.cuts == if old(decoder.state) == EndBatch then old(decoder.cuts)
                            else [Dummy(decoder.graph, old(decoder.steps))]
    ensures decoder.Progress(decodable, old(decoder.Begun(decodable)), scored, dstate == EndUtt)
    ensures 0 < |scored| <= decoder.batchSize && (dstate == EndBatch ==> |scored| == decoder.batchSize)
    ensures Level(decoder.immortalTok) < |decoder.uttLog|
    ensures Recorded(decodable.batches, decodable.consumed, decoder.frame, before + scored)
    ensures old(decodable.consumed + decoder.frame) < decodable.consumed + decoder.frame
    ensures dstate == EndFeats ==>
              decoder.frame == StreamLength(decodable.batches) && before + scored == ScoringOrder(decodable.batches)
  {
    ghost var consumed0, frame0 := decodable.consumed, decoder.frame;
    NeverStranded(decoder, decodable);
    if decoder.state == EndBatch {
      ImmortalLevel(decoder);
    }
    dstate, scored := decoder.Decode(decodable);
    ImmortalLevel(decoder);
    InStepOffsets(decoder, decodable);
    RecordedAdvances(decodable.batches, consumed0, frame0, before, decodable.consumed, decoder.frame,
                     dstate == EndUtt, scored);
  }

  /** A call entered into the account. */
  ghost function Score(a: Account, scored: seq<Scored>): (a': Account) {
    a.(calls := Call(a.calls, scored))
  }

  lemma TotalGrows(a: Account, scored: seq<Scored>)
    ensures Total(Score(a, scored)) == Total(a) + scored
  {
    Associative(AllScored(a.utterances), ScoredIn(a.calls), scored);
  }

  lemma SpansFurther(batches: seq<Batch>, first: nat, calls: Calls, mid: nat, end: nat, scored: seq<Scored>)
    requires Spans(batches, first, calls, mid) && mid <= end <= StreamLength(batches)
    requires scored == Consecutive(batches, mid, end)
    ensures Spans(batches, first, Call(calls, scored), end)
  {
    ConsecutiveJoins(batches, [], first, mid, end);
    assert [] + Consecutive(batches, first, end) == Consecutive(batches, first, end);
    assert [] + (Consecutive(batches, first, mid) + scored) == Consecutive(batches, first, mid) + scored;
  }

  /** Where a call begins, in terms of the account. */
  ghost predicate BeginsAs(start: Start, d: Setup, a: Account, frame: nat) {
    && start.frame == frame
    && start.steps == StepAfter(a.step, a.calls) + 1
    && start.toks == d.search.nonemitting(StepAfter(a.step, a.calls), ActiveAfter(d, a.step, a.calls))
    && start.uttLog == ScoredIn(a.calls)
  }

  lemma BegunInAccount(decoder: OnlineFasterDecoder, decodable: OnlineDecodable, step0: nat, a: Account)
    requires Between(decoder, decodable, step0, a)
    ensures BeginsAs(decoder.Begun(decodable), SetupOf(decoder), a, decoder.frame)
    ensures CutsAfter(SetupOf(decoder), a.step, a.calls)
            == if decoder.state == EndBatch then decoder.cuts else [Dummy(decoder.graph, decoder.steps)]
  {
  }

  lemma ProgressInAccount(decoder: OnlineFasterDecoder, decodable: OnlineDecodable, start: Start, a: Account,
                          frame0: nat, scored: seq<Scored>, forced: bool)
    requires BeginsAs(start, SetupOf(decoder), a, frame0)
    requires decoder.Progress(decodable, start, scored, forced)
    requires Spans(decodable.batches, a.first, a.calls, frame0)
    ensures Current(decoder, Score(a, scored))
    ensures Spans(decodable.batches, a.first, Call(a.calls, scored),
                  if forced then decoder.frame + 1 else decoder.frame)
  {
    var end := if forced then decoder.frame + 1 else decoder.frame;
    SpansFurther(decodable.batches, a.first, a.calls, frame0, end, scored);
  }

  lemma CallEntered(decoder: OnlineFasterDecoder, decodable: OnlineDecodable, step0: nat, a: Account,
                    scored: seq<Scored>)
    requires Balanced(SetupOf(decoder), decodable.batches, step0, a, CutsAfter(SetupOf(decoder), a.step, a.calls))
    requires AllFull(SetupOf(decoder), a.calls) && 0 < |scored| <= decoder.batchSize
    requires decoder.Tracing() && decoder.toks != [] && Level(decoder.immortalTok) < |decoder.uttLog|
    requires Current(decoder, Score(a, scored)) && decoder.cuts == CutsAfter(SetupOf(decoder), a.step, a.calls)
    requires Recorded(decodable.batches, decodable.consumed, decoder.frame, Total(a) + scored)
    requires Spans(decodable.batches, a.first, Call(a.calls, scored),
                   if decoder.state == EndUtt then decoder.frame + 1 else decoder.frame)
    requires decoder.state != EndFeats ==> decoder.Ready(decodable)
    requires decoder.state == EndBatch ==> |scored| == decoder.batchSize
    requires decoder.state == EndFeats ==>
               decoder.frame == StreamLength(decodable.batches) && Total(a) + scored == ScoringOrder(decodable.batches)
    ensures Called(decoder, decodable, step0, Score(a, scored))
  {
    TotalGrows(a, scored);
  }

  /** One call of `Decode`, entered into the account. */
  method DecodeAndScore(decoder: OnlineFasterDecoder, decodable: OnlineDecodable, ghost step0: nat, ghost a: Account)
    returns (dstate: DecodeState, ghost a': Account)
    requires Lawful(decoder.search) && decoder.batchSize > 0
    requires WellFormed(decodable.batches) && NoEmptyBatch(decodable.batches) && !Strands(decodable.batches)
    requires Between(decoder, decodable, step0, a)
    modifies decoder, decodable
    ensures dstate == decoder.state && Called(decoder, decodable, step0, a') && a'.sent == a.sent
    ensures Left(decoder, decodable) < old(Left(decoder, decodable))
  {
    ghost var start, frame0 := decoder.Begun(decodable), decoder.frame;
    BegunInAccount(decoder, decodable, step0, a);
    ghost var scored;
    dstate, scored := DecodeOnce(decoder, decodable, Total(a));
    ProgressInAccount(decoder, decodable, start, a, frame0, scored, dstate == EndUtt);
    CallEntered(decoder, decodable, step0, a, scored);
    a' := Score(a, scored);
  }

  // ----- Sending results -----

  /** The cuts of an utterance and the best of its last active tokens finish it. */
  lemma EndsIn(d: Setup, a: Account, cuts: seq<Token>, best: Token, output: Output)
    requires a.calls.Call? && AllFull(d, a.calls.before) && 0 < |a.calls.scored| <= d.batchSize
    requires cuts == CutsAfter(d, a.step, a.calls.before) && Chain(d.graph, cuts)
    requires AncestorOrSelf(cuts[|cuts| - 1], best) && best != cuts[|cuts| - 1]
    requires IsBest(d.graph, ActiveAfter(d, a.step, a.calls), best) && Level(best) == |ScoredIn(a.calls)|
    requires output == Output(true, WordIds(Piece(d.graph, best, cuts[|cuts| - 1])))
    ensures var u := Utterance(a.step, a.first, a.calls, cuts + [best]);
            Finished(d, u) && OutputsOf(d, u) == PartialOutputs(d.graph, cuts) + [output]
  {
    OneCutMore(d.graph, cuts, best);
  }

  /** The final result, made of the final traceback. */
  method FinalResult(decoder: OnlineFasterDecoder) returns (output: Output, ghost best: Token)
    requires decoder.Tracing() && decoder.toks != [] && Level(decoder.immortalTok) < |decoder.uttLog|
    ensures best in decoder.toks && IsBest(decoder.graph, decoder.toks, best) && Level(best) == |decoder.uttLog|
    ensures AncestorOrSelf(decoder.immortalTok, best) && best != decoder.immortalTok
    ensures output == Output(true, WordIds(Piece(decoder.graph, best, decoder.immortalTok)))
  {
    var out;
    out, best := decoder.FinishTraceBack();
    LinksOfLinear(Piece(decoder.graph, best, decoder.immortalTok), FinalWeight(decoder.graph, best));
    output := Output(true, WordIds(LinksOf(out)));
  }

  /** The end of an utterance: the final result completes what its partial results began. */
  method FinishUtterance(decoder: OnlineFasterDecoder, ghost a: Account) returns (output: Output, ghost u: Utterance)
    requires a.calls.Call? && AllFull(SetupOf(decoder), a.calls.before)
    requires 0 < |a.calls.scored| <= decoder.batchSize
    requires decoder.Tracing() && decoder.toks != [] && Level(decoder.immortalTok) < |decoder.uttLog|
    requires Current(decoder, a) && decoder.cuts == CutsAfter(SetupOf(decoder), a.step, a.calls.before)
    ensures Finished(SetupOf(decoder), u) && u.step == a.step && u.first == a.first && u.calls == a.calls
    ensures OutputsOf(SetupOf(decoder), u) == PartialOutputs(decoder.graph, decoder.cuts) + [output]
  {
    ghost var best;
    output, best := FinalResult(decoder);
    u := Utterance(a.step, a.first, a.calls, decoder.cuts + [best]);
    EndsIn(SetupOf(decoder), a, decoder.cuts, best, output);
  }

  /** A finished utterance entered into the account. */
  ghost function Finish(a: Account, u: Utterance, output: Output, last: nat): (a': Account) {
    Account(a.utterances + [u], StepAfter(a.step, a.calls), last, NoCall, a.sent + [output])
  }

  lemma FinishBalances(d: Setup, batches: seq<Batch>, step0: nat, a: Account, cuts: seq<Token>, u: Utterance,
                       output: Output, last: nat)
    requires Balanced(d, batches, step0, a, cuts)
    requires Finished(d, u) && u.step == a.step && u.first == a.first && u.calls == a.calls
    requires OutputsOf(d, u) == PartialOutputs(d.graph, cuts) + [output]
    requires Spans(batches, a.first, a.calls, last + 1)
    ensures var a' := Finish(a, u, output, last);
            && Follow(d, batches, step0, a'.utterances, a'.step, last)
            && a'.sent == AllOutputs(d, a'.utterances)
            && AllScored(a'.utterances) == Total(a)
  {
    FollowOneMore(d, batches, step0, a.utterances, u, last);
    OneUtteranceMore(d, a.utterances, u);
    Associative(AllOutputs(d, a.utterances), PartialOutputs(d.graph, cuts), [output]);
  }

  /** Nothing is in progress at the beginning of an utterance. */
  lemma NothingInProgress(d: Setup, batches: seq<Batch>, step0: nat, a: Account)
    requires a.calls == NoCall && Follow(d, batches, step0, a.utterances, a.step, a.first)
    requires a.sent == AllOutputs(d, a.utterances)
    requires a.first <= StreamLength(batches)
    ensures Balanced(d, batches, step0, a, CutsAfter(d, a.step, a.calls))
    ensures Spans(batches, a.first, a.calls, a.first)
    ensures Total(a) == AllScored(a.utterances)
  {
  }

  lemma ForcedFinalEntered(decoder: OnlineFasterDecoder, decodable: OnlineDecodable, step0: nat, a: Account,
                           u: Utterance, output: Output)
    requires Called(decoder, decodable, step0, a) && decoder.state == EndUtt
    requires Finished(SetupOf(decoder), u) && u.step == a.step && u.first == a.first && u.calls == a.calls
    requires OutputsOf(SetupOf(decoder), u) == PartialOutputs(decoder.graph, decoder.cuts) + [output]
    ensures Between(decoder, decodable, step0, Finish(a, u, output, decoder.frame))
  {
    FinishBalances(SetupOf(decoder), decodable.batches, step0, a, decoder.cuts, u, output, decoder.frame);
    NothingInProgress(SetupOf(decoder), decodable.batches, step0, Finish(a, u, output, decoder.frame));
  }

  lemma LastEntered(decoder: OnlineFasterDecoder, decodable: OnlineDecodable, step0: nat, a: Account, u: Utterance,
                    output: Output)
    requires StreamLength(decodable.batches) > 0
    requires Called(decoder, decodable, step0, a) && decoder.state == EndFeats
    requires Finished(SetupOf(decoder), u) && u.step == a.step && u.first == a.first && u.calls == a.calls
    requires OutputsOf(SetupOf(decoder), u) == PartialOutputs(decoder.graph, decoder.cuts) + [output]
    ensures Over(decoder, decodable.batches, step0, a.utterances + [u], a.sent + [output])
  {
    FinishBalances(SetupOf(decoder), decodable.batches, step0, a, decoder.cuts, u, output, decoder.frame - 1);
  }

  /** After a forced end: the final result, and the next utterance begins. */
  method SendForcedFinal(decoder: OnlineFasterDecoder, decodable: OnlineDecodable, ghost step0: nat, ghost a: Account)
    returns (output: Output, ghost a': Account)
    requires Called(decoder, decodable, step0, a) && decoder.state == EndUtt
    ensures Between(decoder, decodable, step0, a') && a'.sent == a.sent + [output]
    ensures Left(decoder, decodable) == old(Left(decoder, decodable))
  {
    ghost var u;
    output, u := FinishUtterance(decoder, a);
    ForcedFinalEntered(decoder, decodable, step0, a, u, output);
    a' := Finish(a, u, output, decoder.frame);
  }

  /** At the end of the stream: the last result. */
  method SendLast(decoder: OnlineFasterDecoder, decodable: OnlineDecodable, ghost step0: nat, ghost a: Account)
    returns (output: Output, ghost utterances: seq<Utterance>)
    requires StreamLength(decodable.batches) > 0
    requires Called(decoder, decodable, step0, a) && decoder.state == EndFeats
    ensures Over(decoder, decodable.batches, step0, utterances, a.sent + [output])
    ensures Left(decoder, decodable) == old(Left(decoder, decodable))
  {
    ghost var u;
    output, u := FinishUtterance(decoder, a);
    LastEntered(decoder, decodable, step0, a, u, output);
    utterances := a.utterances + [u];
  }

  /** The end of a batch: a partial result, if the immortal token has moved. */
  method ContinueUtterance(decoder: OnlineFasterDecoder, decodable: OnlineDecodable) returns (outputs: seq<Output>)
    requires decoder.Ready(decodable) && decoder.state == EndBatch && decoder.uttLog != []
    modifies decoder`immortalTok, decoder`prevImmortalTok, decoder`cuts
    ensures decoder.Ready(decodable)
    ensures decoder.cuts == NextCuts(old(decoder.cuts), decoder.toks)
    ensures PartialOutputs(decoder.graph, decoder.cuts) == PartialOutputs(decoder.graph, old(decoder.cuts)) + outputs
  {
    ghost var cuts0, immortal0 := decoder.cuts, decoder.immortalTok;
    var moved, out := decoder.PartialTraceback();
    outputs := [];
    if moved {
      ghost var piece := Piece(decoder.graph, decoder.immortalTok, immortal0);
      LinksOfLinear(piece, FinalWeight(decoder.graph, decoder.immortalTok));
      outputs := [Output(false, WordIds(LinksOf(out)))];
      OneCutMore(decoder.graph, cuts0, decoder.immortalTok);
    }
  }

  lemma ContinueBalances(d: Setup, batches: seq<Batch>, step0: nat, a: Account, cuts: seq<Token>, cuts': seq<Token>,
                         outputs: seq<Output>)
    requires Balanced(d, batches, step0, a, cuts) && Chain(d.graph, cuts')
    requires PartialOutputs(d.graph, cuts') == PartialOutputs(d.graph, cuts) + outputs
    ensures Balanced(d, batches, step0, a.(sent := a.sent + outputs), cuts')
  {
    Associative(AllOutputs(d, a.utterances), PartialOutputs(d.graph, cuts), outputs);
  }

  /** The same in terms of the account. */
  method ContinueAccount(decoder: OnlineFasterDecoder, decodable: OnlineDecodable, ghost step0: nat, ghost a: Account)
    returns (outputs: seq<Output>, ghost a': Account)
    requires decoder.Ready(decodable) && decoder.state == EndBatch && decoder.uttLog != []
    requires a.calls.Call? && Current(decoder, a)
    requires decoder.cuts == CutsAfter(SetupOf(decoder), a.step, a.calls.before)
    requires Balanced(SetupOf(decoder), decodable.batches, step0, a, decoder.cuts)
    modifies decoder`immortalTok, decoder`prevImmortalTok, decoder`cuts
    ensures decoder.Ready(decodable) && a' == a.(sent := a.sent + outputs) && Current(decoder, a')
    ensures decoder.cuts == CutsAfter(SetupOf(decoder), a'.step, a'.calls)
    ensures Balanced(SetupOf(decoder), decodable.batches, step0, a', decoder.cuts)
  {
    ghost var cuts0 := decoder.cuts;
    outputs := ContinueUtterance(decoder, decodable);
    a' := a.(sent := a.sent + outputs);
    ContinueBalances(SetupOf(decoder), decodable.batches, step0, a, cuts0, decoder.cuts, outputs);
  }

  lemma PartialEntered(decoder: OnlineFasterDecoder, decodable: OnlineDecodable, step0: nat, a: Account)
    requires decoder.Ready(decodable) && decoder.state == EndBatch
    requires a.calls.Call? && AllFull(SetupOf(decoder), a.calls) && Current(decoder, a)
    requires decoder.cuts == CutsAfter(SetupOf(decoder), a.step, a.calls)
    requires Balanced(SetupOf(decoder), decodable.batches, step0, a, decoder.cuts)
    requires Recorded(decodable.batches, decodable.consumed, decoder.frame, Total(a))
    requires Spans(decodable.batches, a.first, a.calls, decoder.frame)
    ensures Between(decoder, decodable, step0, a)
  {
  }

  /** After a full batch: a partial result, if there is one. */
  method SendPartial(decoder: OnlineFasterDecoder, decodable: OnlineDecodable, ghost step0: nat, ghost a: Account)
    returns (outputs: seq<Output>, ghost a': Account)
    requires Called(decoder, decodable, step0, a) && decoder.state == EndBatch
    modifies decoder`immortalTok, decoder`prevImmortalTok, decoder`cuts
    ensures Between(decoder, decodable, step0, a') && a'.sent == a.sent + outputs
    ensures Left(decoder, decodable) == old(Left(decoder, decodable))
  {
    outputs, a' := ContinueAccount(decoder, decodable, step0, a);
    PartialEntered(decoder, decodable, step0, a');
  }

  // ----- The loop -----

  /** Before the first call. */
  lemma AtStart(decoder: OnlineFasterDecoder, decodable: OnlineDecodable)
    requires decoder.Ready(decodable) && decoder.state == EndFeats
    ensures Between(decoder, decodable, decoder.steps, Account([], decoder.steps, 0, NoCall, []))
  {
    var a := Account([], decoder.steps, 0, NoCall, []);
    InStepOffsets(decoder, decodable);
    NothingInProgress(SetupOf(decoder), decodable.batches, decoder.steps, a);
  }

  lemma SomethingLeft(decoder: OnlineFasterDecoder, decodable: OnlineDecodable, step0: nat, a: Account)
    requires Between(decoder, decodable, step0, a)
    ensures Left(decoder, decodable) >= 0
  {
  }

  /** One turn of the loop. */
  method Turn(decoder: OnlineFasterDecoder, decodable: OnlineDecodable, ghost step0: nat, ghost a: Account)
    returns (dstate: DecodeState, outputs: seq<Output>, ghost a': Account, ghost utterances: seq<Utterance>)
    requires Lawful(decoder.search) && decoder.batchSize > 0
    requires WellFormed(decodable.batches) && NoEmptyBatch(decodable.batches) && !Strands(decodable.batches)
    requires Between(decoder, decodable, step0, a)
    modifies decoder, decodable
    ensures dstate == EndFeats ==> Over(decoder, decodable.batches, step0, utterances, a.sent + outputs)
    ensures dstate != EndFeats ==> Between(decoder, decodable, step0, a') && a'.sent == a.sent + outputs
    ensures Left(decoder, decodable) < old(Left(decoder, decodable))
  {
    utterances := [];
    dstate, a' := DecodeAndScore(decoder, decodable, step0, a);
    if dstate == EndUtt {
      var output;
      output, a' := SendForcedFinal(decoder, decodable, step0, a');
      outputs := [output];
    } else if dstate == EndFeats {
      MoreToLoad(decodable.batches, 0);
      var output;
      output, utterances := SendLast(decoder, decodable, step0, a');
      outputs := [output];
    } else {
      outputs, a' := SendPartial(decoder, decodable, step0, a');
    }
  }

  /** The result loop of an online session.  On every stream that does not strand the decoder the utterances found
      follow one another over the whole stream, from the search step the decoder was at; each is what the search
      makes of its frames, cut where its partial tracebacks cut it and ended by the best of its active tokens; and the
      results sent are those of these cuts. */
  method OnlineDecode(decoder: OnlineFasterDecoder, decodable: OnlineDecodable)
    returns (sent: seq<Output>, ghost utterances: seq<Utterance>)
    requires Lawful(decoder.search) && decoder.batchSize > 0
    requires WellFormed(decodable.batches) && NoEmptyBatch(decodable.batches) && !Strands(decodable.batches)
    requires decoder.Ready(decodable) && decoder.state == EndFeats
    modifies decoder, decodable
    ensures StreamLength(decodable.batches) > 0
    ensures Follow(SetupOf(decoder), decodable.batches, old(decoder.steps), utterances, decoder.steps,
                   StreamLength(decodable.batches) - 1)
    ensures sent == AllOutputs(SetupOf(decoder), utterances)
    ensures AllScored(utterances) == ScoringOrder(decodable.batches)
  {
    ghost var step0 := decoder.steps;
    ghost var a := Account([], step0, 0, NoCall, []);
    AtStart(decoder, decodable);
    sent, utterances := [], [];
    var done := false;
    while !done
      invariant if done then Over(decoder, decodable.batches, step0, utterances, sent)
                else Between(decoder, decodable, step0, a) && a.sent == sent
      decreases !done, Left(decoder, decodable)
    {
      SomethingLeft(decoder, decodable, step0, a);
      var dstate, outputs;
      dstate, outputs, a, utterances := Turn(decoder, decodable, step0, a);
      sent := sent + outputs;
      done := dstate == EndFeats;
    }
  }

  /** The only batch of a stream ends the speech: its first frame is all that a first call scores. */
  lemma LoneBatchForcesTheEnd(batches: seq<Batch>, consumed: nat, frame: nat, forced: bool, scored: seq<Scored>)
    requires Strands(batches) && NoEmptyBatch(batches)
    requires Advance(batches, 0, 0, consumed, frame, forced, scored) && scored != []
    requires AtBatch(batches, consumed, frame)
    ensures forced && frame == 0 && scored == [Scored(0, batches[0].rows[0])]
  {
    StreamAt(batches, 0, 0);
  }

  lemma FirstCallIsCurrent(decoder: OnlineFasterDecoder, step: nat, scored: seq<Scored>)
    requires var before := decoder.search.nonemitting(step, [Dummy(decoder.graph, step)]);
             decoder.toks == Searched(decoder.search, step + 1, before, scored)
    requires decoder.steps == step + 1 + 2 * |scored| && decoder.uttLog == [] + scored
    ensures Current(decoder, Score(Account([], step, 0, NoCall, []), scored))
  {
  }

  /** The first call on a stream that strands the decoder. */
  method StrandedFirstCall(decoder: OnlineFasterDecoder, decodable: OnlineDecodable) returns (ghost scored: seq<Scored>)
    requires Lawful(decoder.search) && decoder.batchSize > 0
    requires WellFormed(decodable.batches) && NoEmptyBatch(decodable.batches) && Strands(decodable.batches)
    requires decoder.Ready(decodable) && decoder.state == EndFeats
    modifies decoder, decodable
    ensures scored == [Scored(0, decodable.batches[0].rows[0])]
    ensures decoder.Ready(decodable) && decoder.Stranded(decodable)
    ensures decoder.Tracing() && decoder.toks != [] && Level(decoder.immortalTok) < |decoder.uttLog|
    ensures decoder.cuts == [Dummy(decoder.graph, old(decoder.steps))]
    ensures Current(decoder, Score(Account([], old(decoder.steps), 0, NoCall, []), scored))
  {
    var dstate;
    ghost var step := decoder.steps;
    InStepOffsets(decoder, decodable);
    dstate, scored := decoder.Decode(decodable);
    InStepOffsets(decoder, decodable);
    LoneBatchForcesTheEnd(decodable.batches, decodable.consumed, decoder.frame, dstate == EndUtt, scored);
    ImmortalLevel(decoder);
    FirstCallIsCurrent(decoder, step, scored);
  }

  /** The first turn on a stream that strands the decoder. */
  method StrandedFirstTurn(decoder: OnlineFasterDecoder, decodable: OnlineDecodable)
    returns (first: Output, ghost u: Utterance)
    requires Lawful(decoder.search) && decoder.batchSize > 0
    requires WellFormed(decodable.batches) && NoEmptyBatch(decodable.batches) && Strands(decodable.batches)
    requires decoder.Ready(decodable) && decoder.state == EndFeats
    modifies decoder, decodable
    ensures Finished(SetupOf(decoder), u) && u.step == old(decoder.steps) && u.first == 0
    ensures ScoredIn(u.calls) == [Scored(0, decodable.batches[0].rows[0])]
    ensures [first] == OutputsOf(SetupOf(decoder), u)
    ensures decoder.Ready(decodable) && decoder.Stranded(decodable)
  {
    ghost var a := Account([], decoder.steps, 0, NoCall, []);
    ghost var scored := StrandedFirstCall(decoder, decodable);
    first, u := FinishUtterance(decoder, Score(a, scored));
    assert PartialOutputs(decoder.graph, decoder.cuts) == [];
  }

  /** What happens otherwise: on a stream that strands the decoder the first utterance consists of frame 0 alone,
      and the second call of `Decode` reports the end of the features at once.  No later frame is scored, and no
      token has consumed a frame when the final traceback is asked for. */
  method StrandedSession(decoder: OnlineFasterDecoder, decodable: OnlineDecodable)
    returns (first: Output, ghost u: Utterance, dstate: DecodeState)
    requires Lawful(decoder.search) && decoder.batchSize > 0
    requires WellFormed(decodable.batches) && NoEmptyBatch(decodable.batches) && Strands(decodable.batches)
    requires decoder.Ready(decodable) && decoder.state == EndFeats
    modifies decoder, decodable
    ensures Finished(SetupOf(decoder), u) && u.step == old(decoder.steps) && u.first == 0
    ensures ScoredIn(u.calls) == [Scored(0, decodable.batches[0].rows[0])]
    ensures [first] == OutputsOf(SetupOf(decoder), u)
    ensures dstate == EndFeats && decoder.frame == 0 && decoder.uttLog == [] && decoder.toks != []
    ensures forall i :: 0 <= i < |decoder.toks| ==> Level(decoder.toks[i]) == 0
  {
    first, u := StrandedFirstTurn(decoder, decodable);
    ghost var scored;
    dstate, scored := decoder.Decode(decodable);
  }
}
