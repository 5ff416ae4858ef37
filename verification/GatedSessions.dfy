/** A session on gated speech: audio through the gate, the context window and the decoder. */
module GatedSessions {
  import opened Basics
  import opened VadInputs
  import opened Splices
  import opened Decodables
  import opened OnlineDecoders
  import opened Sessions
  import opened Determinacy
  import opened DecodeSessions
  import opened GatedFeatures

  /** What a session on these samples leaves: the batches its stream yields and, from the search step `step0` on, the
      utterances the search makes of them and the results that are sent. */
  ghost predicate Served(c: Chain, src: seq<real>, stream: seq<real>, d: Setup, step0: nat, batches: seq<Batch>,
                         utterances: seq<Utterance>, step: nat, sent: seq<Output>)
  {
    && c.Step() > 0 && PassesThrough(c, src, stream) && |stream| >= c.Length()
    && Yields(c, stream, batches) && StreamLength(batches) > 0
    && Follow(d, batches, step0, utterances, step, StreamLength(batches) - 1)
    && AllScored(utterances) == ScoringOrder(batches)
    && sent == AllOutputs(d, utterances)
  }

  /** The session as the program sets it up: on gated audio, with more rows a batch than the context takes, the
      session is complete, whatever the audio and whatever the detector says. */
  method GatedSession(c: Chain, vad: OnlineVadFeInput, lda: OnlineLdaInput, decoder: OnlineFasterDecoder)
    returns (batches: seq<Batch>, sent: seq<Output>, ghost utterances: seq<Utterance>)
    requires c.Sound() && Joined(c, vad, lda) && c.delay == vad.bufferLength && c.nvec > c.right
    requires Untouched(vad) && lda.Valid() && lda.featWindow.Length == 0
    requires |vad.source.src| + c.Step() < MAX_FRAMES * c.shift
    requires Lawful(decoder.search) && decoder.batchSize > 0
    requires decoder.state == EndFeats && decoder.frame == 0 && !decoder.forcingEndUtt
    modifies vad, vad.buffer, vad.source, lda, lda.featWindow, decoder
    ensures Served(c, vad.source.src, vad.stream, SetupOf(decoder), old(decoder.steps), batches, utterances,
                   decoder.steps, sent)
  {
    batches := GatedBatches(c, vad, lda);
    var decodable := new OnlineDecodable(batches);
    sent, utterances := OnlineDecode(decoder, decodable);
  }

  /** The audio determines the batches, the utterances and the results, unless it is too short to fill the delay
      buffer and the detector is shown samples that were never read. */
  lemma AudioDeterminesResults(c: Chain, src: seq<real>, d: Setup, step0: nat,
                               stream: seq<real>, batches: seq<Batch>, us: seq<Utterance>, step: nat,
                               sent: seq<Output>, stream': seq<real>, batches': seq<Batch>, us': seq<Utterance>,
                               step': nat, sent': seq<Output>)
    requires c.Sound() && (|src| >= c.Length() || stream == stream')
    requires Served(c, src, stream, d, step0, batches, us, step, sent)
    requires Served(c, src, stream', d, step0, batches', us', step', sent')
    ensures batches == batches' && us == us' && sent == sent'
  {
    assert stream == stream';
    YieldsIsDetermined(c, stream, batches, batches');
    SessionIsDetermined(d, batches, step0, us, step, StreamLength(batches) - 1, us', step',
                        StreamLength(batches) - 1);
  }

  /** A second utterance scores the last frame of the first one again. */
  lemma FrameScoredAgain(d: Setup, batches: seq<Batch>, step0: nat, us: seq<Utterance>, step: nat, last: nat)
    returns (k: nat)
    requires Follow(d, batches, step0, us, step, last) && |us| > 1
    ensures k + 1 < |AllScored(us)| && AllScored(us)[k].frame == AllScored(us)[k + 1].frame
  {
    var n := |us| - 1;
    var before, u := us[..n], us[n];
    var earlier, v := AllScored(before[..n - 1]), before[n - 1];
    assert AllScored(us) == earlier + ScoredIn(v.calls) + ScoredIn(u.calls);
    k := |earlier| + |ScoredIn(v.calls)| - 1;
    assert AllScored(us)[k].frame == u.first == AllScored(us)[k + 1].frame;
  }

  /** So a session that scores every frame once has one utterance. */
  lemma OneUtterance(d: Setup, batches: seq<Batch>, step0: nat, us: seq<Utterance>, step: nat, last: nat,
                     rows: seq<Row>)
    requires Follow(d, batches, step0, us, step, last) && AllScored(us) == Number(0, rows) && rows != []
    ensures |us| == 1
  {
    if |us| > 1 {
      var k := FrameScoredAgain(d, batches, step0, us, step, last);
    }
  }

  lemma LoneBatchIsScored(batches: seq<Batch>)
    requires |batches| == 1 && !batches[0].endsSpeech
    ensures ScoringOrder(batches) == Number(0, batches[0].rows)
  {
    assert ScoringOrderTo(batches, 1) == [] + ([] + Number(0, batches[0].rows));
  }

  /** The last result is that of a finished utterance. */
  lemma FinalIsSent(d: Setup, batches: seq<Batch>, step0: nat, us: seq<Utterance>, step: nat, last: nat)
    requires Follow(d, batches, step0, us, step, last) && us != []
    ensures AllOutputs(d, us) != [] && AllOutputs(d, us)[|AllOutputs(d, us)| - 1].endUtterance
  {
    var u := us[|us| - 1];
    assert Finished(d, u) && OutputsOf(d, u)[|OutputsOf(d, u)| - 1].endUtterance;
  }

  lemma LoneBatchIsDecoded(d: Setup, batches: seq<Batch>, step0: nat, us: seq<Utterance>, step: nat, last: nat)
    requires |batches| == 1 && !batches[0].endsSpeech && batches[0].rows != []
    requires Follow(d, batches, step0, us, step, last) && AllScored(us) == ScoringOrder(batches)
    ensures AllScored(us) == Number(0, batches[0].rows) && |us| == 1
    ensures AllOutputs(d, us) != [] && AllOutputs(d, us)[|AllOutputs(d, us)| - 1].endUtterance
  {
    LoneBatchIsScored(batches);
    OneUtterance(d, batches, step0, us, step, last, batches[0].rows);
    FinalIsSent(d, batches, step0, us, step, last);
  }

  /** Without speech in all of the audio the search runs all the same, over what was never written, and a final result
      is sent. */
  lemma SilenceIsDecoded(c: Chain, src: seq<real>, stream: seq<real>, d: Setup, step0: nat, batches: seq<Batch>,
                         us: seq<Utterance>, step: nat, sent: seq<Output>)
    requires c.Sound() && Served(c, src, stream, d, step0, batches, us, step, sent)
    requires forall k :: 0 <= k < Iterations(c, |stream|) ==> !DecisionsOn(c, stream)[k]
    ensures AllScored(us) == Number(0, Spliced(c.unwritten([]), c.left, c.right, c.transform))
    ensures |us| == 1 && sent != [] && sent[|sent| - 1].endUtterance
  {
    SilentStream(c, stream, batches);
    LoneBatchIsDecoded(d, batches, step0, us, step, StreamLength(batches) - 1);
  }
}
