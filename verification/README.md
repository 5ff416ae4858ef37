# A verified model of a threaded online speech recogniser

The program serves speech recognition over sockets.  A thread pool hands connections to workers; a worker pulls
audio from its client, turns it into feature rows through a chain of streaming stages, decodes the rows frame by
frame, and sends word results back while the client is still talking.  This project models the parts of that
program where state is carried from one call, batch or thread step to the next, and proves what the parts keep.

It has four groups of modules.

- **Decoder.**  `Tokens` (the forest of back pointers), `Lattices` (the linear lattices a traceback writes),
  `Utterances` (an utterance's path cut at the immortal tokens), `Decodables` (feature batches and the order in
  which frames are scored), `OnlineDecoders` (the `Decode` loop and the tracebacks), `Sessions` (what a session should
  do, told in terms of the search and the batches alone), `Determinacy` (that this fixes the results),
  `DecodeSessions` (the result loop, proved to do it),
  `PhoneSplits` and `EndOfUtterances` (splitting an alignment into phones, and the silence test on it).
- **Thread pool.**  `Pools` (dispatcher, workers and semaphore as one interleaved step system), `PoolProofs` (every
  step keeps the invariant) and `PoolRuns` (what holds in every reachable state and over every run).
- **Feature pipeline.**  `Windows` and `Splices` (ring window, shifted window, file mode), `Statistics` and `Cmns`
  (history ring, rolling mean, variance), `VadGates` and `VadInputs` (the speech gate and its delay buffer),
  `AudioSources` (samples in memory, frames with a carried remainder), `GatedFeatures` (gate, extraction and context
  window as one chain, from audio to feature batches) and `GatedSessions` (the decoder on that chain, as the program sets
  it up).
- **Audio pull protocol.**  `Packets` (bytes, headers, the socket), `AudioPulls` (server and client as an interleaved
  step system over arbitrarily cut byte streams) and `AudioPullRuns` (runs of it, and both ends as code).

`Basics` holds shared facts about sequences and numbers.

Objects that the program updates in place are classes here; a token, which is never changed after its creation, is a
value that carries its address.  Ghost fields (`cuts`, `uttLog`, `history`, `heard`, `consumed`) record what has gone
through an object, and its invariant ties the real fields to that record.  Audio and features are reals.

## What the proofs found

Each of these is a place where the code does less than its comments or its callers suggest.  The code is modelled as it
is, and the condition under which it does what is promised is proved.

- **The oldest arc.**  `MakeLattice` takes the oldest arc of a piece for the dummy token's and drops it when it enters the
  start state.  The dummy token is never in the walk, so what is dropped is always a real arc.  The pieces make up the
  whole path if and only if no piece begins with such an arc (`Utterances.PrintedIsWholePath`), in particular when no
  arc enters the start state at all; the words sent are those of the whole path if and only if no such arc carries a
  word (`Sessions.WordsOfWholePath`).  `Utterances.ArcIntoStartIsLost` is a path that is lost.
- **Frame 0.**  `IsLastFrame(-1)` compares an int32 with a uint32, so it is true as soon as the input is exhausted.  If the
  only batch of a stream also ends the speech, the second call of `Decode` scores nothing and reports the end of the
  features (`DecodeSessions.StrandedSession`); on every other stream the session is complete
  (`DecodeSessions.OnlineDecode`).  A gated stream never begins with such a batch, and with more rows a batch than the
  right context its session is complete whatever the audio and whatever the detector says
  (`GatedSessions.GatedSession`).
- **Silence at the end.**  When the gate is closed as the stream ends, the program still decodes one more output, one that
  nothing was written to; the frames are those of the emitted fronts alone if and only if the gate is open at the end
  (`GatedFeatures.OnlySpeechIsSpliced`).  On audio without speech that output is all that is decoded, and a final result
  is sent for it (`GatedSessions.SilenceIsDecoded`).
- **The tail.**  The last samples of a stream, as many as the delay and the rest of a division, are never emitted, whatever
  the detector says (`GatedFeatures.TailStaysBehind`).
- **Short audio.**  The results are determined by the audio if it fills the delay buffer
  (`GatedSessions.AudioDeterminesResults`); if it does not, samples that were never read can decide whether there is
  speech (`GatedFeatures.ShortSourceLeavesItOpen`).
- **No active token.**  Without active tokens `UpdateImmortalToken` changes nothing, so a decoder that has just moved its
  immortal token repeats its last piece when it is asked again
  (`OnlineDecoders.OnlineFasterDecoder.AskAgainWithoutTokens`).  A search that meets `Lawful` keeps an active token, so no
  session of this model gets there.
- **Silence of length 0.**  From `interUttSil * maxUttLen` frames on, and not before, `EndOfUtterance` asks for 0 frames of
  silence and then takes `back()` of an empty list (`EndOfUtterances.NoSilenceAskedFor`).
- **The dispatcher's assertion.**  The comment at src/TaskDispatcher.cc:32-34 is not unconditional: a worker still holds its
  mutex when it signals the semaphore, and has not parked when it is announced.  When the semaphore is about to let the
  dispatcher pass, some interleaving without spurious wakeups fails the assertion if and only if no worker without a
  task is parked (`PoolRuns.ScanCanFail`); with a spurious wakeup at the wrong moment any scan can fail
  (`PoolRuns.SpuriousWakeupsFailAnyScan`).
- **Short first batches.**  The context windows throw away leading batches that are short of the request and of the
  window.  No frame is lost if and only if the first batch with rows in it is complete or as long as the window, or the
  whole stream is too short to yield any frame (`Splices.NothingLost`); `Splices.ShortFirstBatchIsLost` loses one.
- **Stale mean.**  `ApplyCmvn` rolls its running mean along but never checks it: it subtracts the mean of the ring if and
  only if that mean was current before the call (`Cmns.OnlineCmn.CentredWhenCurrent`), which it is not after
  `ApplyCmvn2` has moved the ring (`Cmns.MixedCalls`).
- **Hangover.**  The gate's counter is reset at the start of speech only, so it counts all non-speech batches since then,
  not consecutive ones (`VadGates.EndFiresOnTime`).  The end of a speech closes that many consecutive non-speech batches
  if and only if no speech batch has followed a non-speech one since the start (`VadGates.EndsInConsecutiveSilence`);
  `VadGates.EndWithoutConsecutiveSilence` is a speech that ends without two neighbouring ones.
- **Reading on.**  After the read that exhausts the wave the client is gone: a further read of the remote source never
  completes, where the local source returns 0 (`AudioPullRuns.ReadCompletesWhileSamplesAreLeft`).

## Model

| member | source | states |
|---|---|---|
| Tokens.PathCostTelescopes | speechsvr/online-decoder/online-faster-decoder.cc:54-64 | the graph and acoustic costs on a walk add up to the difference of the accumulated costs at its ends |
| Tokens.SegmentSplits | speechsvr/online-decoder/online-faster-decoder.cc:54-64 | a walk cut at an ancestor is the two walks one after the other |
| Tokens.CostsOnWalk | speechsvr/online-decoder/online-faster-decoder.cc:54-64 | the graph costs on a walk are the weights of the arcs its tokens stand on, and the acoustic costs are the rest |
| Tokens.WalkOneLevelDown | speechsvr/online-decoder/online-faster-decoder.cc:103-114 | skipping non-emitting tokens leads from the emitting ancestor at one level to the one at the level below, and from the first level to NULL |
| Lattices.MakeLattice | speechsvr/online-decoder/online-faster-decoder.cc:42-83 | the walk meets its end token, the arc list is not empty when its back is looked at, and the lattice is the chain of the kept tokens, oldest first: on each arc the token's labels, its graph weight and its share of the cost, and on the last state the graph's final cost if it has one; the null start gives no states |
| Lattices.LinearHasOnePath | speechsvr/online-decoder/online-faster-decoder.cc:68-82 | such a lattice has one path from its start state to a final state, that of its links in order |
| Lattices.TracebackNFrames | speechsvr/online-decoder/online-faster-decoder.cc:157-205 | the lattice is the chain of the newest tokens back to the requested number of emitting ones, or to the dummy token, with their labels and costs |
| Lattices.RecentIsWalk | speechsvr/online-decoder/online-faster-decoder.cc:174-187 | they are all the tokens of a walk, with the requested number of emitting ones unless the path ends before |
| Lattices.RecentAlignment | speechsvr/online-decoder/online-faster-decoder.cc:174-187 | those tokens carry the last n transition ids of the alignment, all of them when there are fewer |
| Utterances.PieceAccounting | speechsvr/online-decoder/online-faster-decoder.cc:54-67 | a printed piece and what it left out are the whole walk, in order |
| Utterances.PrintedAccounting | speechsvr/online-decoder/online-faster-decoder.cc:42-154 | printed arcs and dropped arcs together have the length of the full path and the cost of its accumulated weight |
| Utterances.PrintedIsWholePath | speechsvr/online-decoder/online-faster-decoder.cc:42-154 | the partial and final lattices of an utterance are exactly the full path, and their costs its weight, if and only if no traceback meets the guard under which it leaves out its oldest arc |
| Utterances.ArcIntoStartIsLost | speechsvr/online-decoder/online-faster-decoder.cc:65-67 | a path of one arc into the start state of which nothing is printed |
| Utterances.PrintedWithoutArcsIntoStart | speechsvr/online-decoder/online-faster-decoder.cc:65-67 | without arcs into the start state nothing is lost, repeated or reordered |
| Decodables.OnlineDecodable.LogLikelihood | speechsvr/online-decoder/online-decodable.cc:26-45 | a frame is scored on its own row of the unbatched stream for any batch sizes; when a batch is loaded, when the out-of-bounds assertion and when the end-of-features error occur |
| Decodables.OnlineDecodable.IsLastFrameMeaning | speechsvr/online-decoder/online-decodable.cc:48-54 | yes exactly when the input is exhausted and the frame is the last one or -1 |
| Decodables.AdvanceFollowsTheOrder | speechsvr/online-decoder/online-faster-decoder.cc:358-387 | whatever number of batches one call of Decode runs through, what it scores continues the scoring order of the stream |
| Decodables.FramesScored | speechsvr/online-decoder/online-faster-decoder.cc:380-386 | no frame is skipped, and one is scored twice exactly when a forced end fell on it |
| Decodables.ScoredRowsAreTheStream | speechsvr/online-decoder/online-decodable.cc:26-45 | every scored frame is scored on the row of that number in the stream |
| OnlineDecoders.SearchedStepByStep | speechsvr/online-decoder/online-faster-decoder.cc:373-387 | what the search leaves after some rows is exactly what a trace of its steps leads to: a non-emitting step and then, for each row, an emitting step on it and a non-emitting one |
| OnlineDecoders.EndsNonemitting | speechsvr/online-decoder/online-faster-decoder.cc:380-381 | a call that scores a frame ends with the emitting step on the last row and a non-emitting step |
| OnlineDecoders.EmittingStepKeepsActive | speechsvr/online-decoder/online-faster-decoder.cc:380 | after an emitting step all active tokens have consumed one frame more and still descend from the immortal token |
| OnlineDecoders.NonemittingStepKeepsActive | speechsvr/online-decoder/online-faster-decoder.cc:381 | a non-emitting step changes neither |
| OnlineDecoders.LastCommonToken | speechsvr/online-decoder/online-faster-decoder.cc:86-115 | the level-by-level intersection ends, with the most recent emitting token all active tokens descend from, or with none if there is none |
| OnlineDecoders.LastCommonMovesForward | speechsvr/online-decoder/online-faster-decoder.cc:116-120 | a new immortal token descends from the old one |
| OnlineDecoders.OnlineFasterDecoder.UpdateImmortalToken | speechsvr/online-decoder/online-faster-decoder.cc:86-121 | selects the deepest common emitting token and keeps the old one as the previous; changes neither pointer if none exists |
| OnlineDecoders.OnlineFasterDecoder.PartialTraceback | speechsvr/online-decoder/online-faster-decoder.cc:124-131 | true exactly when the immortal token moved, then strictly forward, and the lattice is the piece in between; without active tokens the last piece is printed again |
| OnlineDecoders.OnlineFasterDecoder.AskAgainWithoutTokens | speechsvr/online-decoder/online-faster-decoder.cc:86-131 | asked once more after the active tokens are gone, it gives the same answer with the same piece |
| OnlineDecoders.BestToken | speechsvr/online-decoder/online-faster-decoder.cc:136-152 | the first cheapest of the final tokens by cost with final cost, or of all tokens when none is final |
| OnlineDecoders.BestIsOptimal | speechsvr/online-decoder/online-faster-decoder.cc:136-152 | a token is that one if and only if the costs on the arcs of its path and the graph's final cost add up to no more than those of any active token in a final state, and to less than those before it; without final tokens the same without final costs |
| OnlineDecoders.OnlineFasterDecoder.FinishTraceBack | speechsvr/online-decoder/online-faster-decoder.cc:134-154 | the best token ends an optimal path from the dummy token, is not the immortal one and has consumed every scored frame, and the lattice carries the tokens between the two and the graph's final cost; without active tokens the lattice has no states |
| OnlineDecoders.OnlineFasterDecoder.ResetDecoder | speechsvr/online-decoder/online-faster-decoder.cc:28-39 | one dummy token, both immortal pointers on it, the frame counter kept unless the reset is full |
| OnlineDecoders.OnlineFasterDecoder.ScoreFrame | speechsvr/online-decoder/online-faster-decoder.cc:380-387 | scores the next frame of the stream, with an emitting step on its row and then a non-emitting step; the counter moves on unless the end was forced, which happens exactly when the frame's batch was just loaded and ended the speech |
| OnlineDecoders.OnlineFasterDecoder.Decode | speechsvr/online-decoder/online-faster-decoder.cc:347-397 | every call goes on where the last one stopped, never asks out of bounds, scores at least one frame, ends the utterance exactly on a forced end and the features exactly at the end of the stream, and leaves the active tokens that a trace of search steps on exactly the rows scored leads to, from those of the last call or from a dummy; the stranded decoder is the one exception |
| DecodeSessions.OnlineDecode | speechsvr/DecodeWorker.cc:285-331 | on every stream that does not strand the decoder the utterances follow one another over the whole stream in its scoring order, each the outcome of the search on its own frames from a new dummy token, cut at the deepest common tokens of its full batches and ended by the best token then active, and the results sent are those of these cuts |
| Determinacy.SessionIsDetermined | speechsvr/DecodeWorker.cc:285-331 | search, batches and first step leave one list of utterances, and one list of results, that a session can give |
| Sessions.ActiveStepByStep | speechsvr/DecodeWorker.cc:285-331 | the tokens active after the calls of an utterance are exactly those that the traces of its calls, one after the other, lead to from a dummy |
| Sessions.FinishedIsOptimal | speechsvr/DecodeWorker.cc:288-299 | the path a finished utterance ends with is optimal among the paths to the tokens the search was led to |
| Sessions.LastResultEndsUtterance | speechsvr/DecodeWorker.cc:288-317 | an utterance has one result a cut, and its last result alone is marked as its end |
| DecodeSessions.StrandedSession | speechsvr/DecodeWorker.cc:288-331 | on a stream that does, the first utterance is frame 0 alone, nothing else is scored, and no token has consumed a frame when the final traceback is asked for |
| Sessions.WordsOfUtterance | speechsvr/DecodeWorker.cc:291-317 | the words sent for an utterance, result after result, are the words on its printed arcs |
| Sessions.WordsOfWholePath | speechsvr/DecodeWorker.cc:291-317 | they are the words on the arcs of the best token's whole path, token by token, if and only if no arc into the start state that a traceback leaves out carries a word |
| GatedFeatures.GatedBatches | speechsvr/DecodeWorker.cc:262-283 | on any audio the batches are the spliced rows of exactly the buffer fronts the gate emits, one batch for each and one of unwritten rows if the gate is closed at the end; a batch ends the speech exactly when the gate does so on its front; they do not strand the decoder, and none is empty if and only if more rows are asked for than the right context |
| GatedFeatures.YieldsIsDetermined | speechsvr/DecodeWorker.cc:262-283 | these clauses leave one list of batches for a stream |
| GatedFeatures.OnlySpeechIsSpliced | speechsvr/online-decoder/online-vad.cc:196-231 | the frames are those of the emitted fronts and nothing else if and only if the gate is open when the stream ends |
| GatedFeatures.SilentStream | speechsvr/online-decoder/online-vad.cc:196-231 | audio without speech yields one batch, made of rows nothing was written to |
| GatedFeatures.TailStaysBehind | speechsvr/online-decoder/online-vad.cc:164-231 | every emitted front ends before the last samples, as many as the delay and the rest of dividing what follows the first buffer by the step, and one ends right there if the gate is open at the end |
| GatedFeatures.ShortSourceLeavesItOpen | speechsvr/online-decoder/online-vad.cc:155-174 | audio too short for the buffer with two contents of the part that is never read: with one of them the gate is open at the end, with the other it is not |
| GatedSessions.GatedSession | speechsvr/DecodeWorker.cc:231-331 | on gated audio the session is complete without a condition on the batches: they are those the audio yields, and utterances and results are those the search makes of them |
| GatedSessions.AudioDeterminesResults | speechsvr/DecodeWorker.cc:231-331 | batches, utterances and results are determined by the audio if it fills the delay buffer |
| GatedSessions.SilenceIsDecoded | speechsvr/DecodeWorker.cc:285-331 | on audio without speech one utterance is decoded, of unwritten rows alone, and a final result is sent |
| PhoneSplits.IsReordered | speechsvr/online-decoder/online-faster-decoder.cc:217-241 | the first neighbouring pair of different states with a self-loop decides; otherwise the two ends do |
| PhoneSplits.FindEndPoints | speechsvr/online-decoder/online-faster-decoder.cc:257-293 | finds exactly the points where a phone ends, and notices an end that no final transition leads to |
| PhoneSplits.SplitToPhonesInternal | speechsvr/online-decoder/online-faster-decoder.cc:252-309 | the pieces between the end points, and whether each is left by a final transition and starts in HMM state 0 |
| PhoneSplits.ChecksPassExactly | speechsvr/online-decoder/online-faster-decoder.cc:252-309 | the checks pass if and only if every phone of the split starts in HMM state 0 and is left by a final transition, with at most self-loops behind it if they come last |
| PhoneSplits.SplitPartitions | speechsvr/online-decoder/online-faster-decoder.cc:252-309 | no piece is empty and the pieces laid end to end are the alignment |
| PhoneSplits.PiecesAreOfOnePhone | speechsvr/online-decoder/online-faster-decoder.cc:252-309 | all transitions of a piece are of one phone |
| PhoneSplits.SplitUndoesConcatenation | speechsvr/online-decoder/online-faster-decoder.cc:252-309 | well-formed phones laid end to end are split into those phones, and the checks pass |
| PhoneSplits.OrderDoesNotMatter | speechsvr/online-decoder/online-faster-decoder.cc:211-213 | without self-loops both values of the flag give the same split |
| PhoneSplits.SplitToPhones | speechsvr/online-decoder/online-faster-decoder.cc:312-321 | the split under the guessed order, a partition into pieces of one phone |
| EndOfUtterances.SilenceShrinks | speechsvr/online-decoder/online-faster-decoder.cc:326 | in the q-th stretch of maxUttLen frames the silence asked for is the (1 + q)-th part of interUttSil, rounded down |
| EndOfUtterances.NoSilenceAskedFor | speechsvr/online-decoder/online-faster-decoder.cc:326 | the number of silence frames is 0 exactly from a certain utterance length on |
| EndOfUtterances.TracedIdsAreTheLast | speechsvr/online-decoder/online-faster-decoder.cc:174-189 | the traced transition ids are those of the last frames if and only if the oldest is not on an arc into the start state |
| EndOfUtterances.CheapestIsBest | speechsvr/online-decoder/online-faster-decoder.cc:160-163 | the token traced back from is the one the final traceback takes when no token is final |
| EndOfUtterances.EndOfUtterance | speechsvr/online-decoder/online-faster-decoder.cc:324-341 | looking only at the first transition of each phone, the answer is yes exactly when every traced transition is of a silence phone |
| PoolRuns.RunKeepsInv | src/Worker.cc:11-106 | every interleaving of dispatcher, workers and spurious wakeups keeps the pool's invariant |
| PoolRuns.PlacesAreConserved | src/TaskDispatcher.cc:22-50 | semaphore count, the dispatcher's place, workers with a task or about to signal, and tasks discarded at shutdown add up to the workers announced |
| PoolRuns.DispatcherFindsFreeWorker | src/TaskDispatcher.cc:29-37 | when the semaphore lets the dispatcher pass some worker has no task |
| PoolRuns.ScanCanFail | src/TaskDispatcher.cc:29-43 | when the semaphore is about to let the dispatcher pass, some interleaving without spurious wakeups fails the assertion if and only if no worker without a task is parked |
| PoolRuns.SpuriousWakeupsFailAnyScan | src/TaskDispatcher.cc:29-43 | with spurious wakeups any scan can fail |
| PoolRuns.AssertFailureExplained | src/Worker.cc:86-106 | once the assertion has failed, each try that met a worker without a task met its mutex in its own thread's hands, and there was such a try |
| PoolRuns.AssertCanFailAtStart | src/TaskDispatcher.cc:43 | a run in which it fails because the announced worker has not parked yet |
| PoolRuns.AssertCanFailAfterTask | src/Worker.cc:32-37 | in a pool of one worker that has signalled and still holds its mutex, three steps of the dispatcher fail it |
| PoolRuns.ScanAfterTaskIsReachable | src/Worker.cc:17-37 | such a state is reached |
| PoolRuns.ParkedWorkerSavesTheScan | src/Worker.cc:86-106 | a parked worker ahead of the scan prevents it, whatever the other threads do |
| PoolRuns.TasksAreDeletedOnce | src/Worker.cc:31-38 | no task is worked on, reported or deleted twice, and none is deleted between its work and its report |
| PoolRuns.NoTaskIsLeftBehind | src/Worker.cc:58-84 | after the dispatcher's destruction every accepted task has been deleted, after one work and one report or after neither |
| PoolRuns.TasksAreNotShared | src/Worker.cc:86-106 | no two workers have the same task |
| PoolRuns.NoLostWakeup | src/Worker.cc:17-31 | no worker is parked with its mutex free and a task set |
| PoolRuns.TaskIsBegun | src/Worker.cc:17-32 | over any run, whatever the other threads do, a worker with a task begins the work within four steps of its own unless its destructor begins before |
| PoolRuns.WorkIsNotBlocked | src/Worker.cc:17-32 | until then its thread can step or, while the main thread holds its mutex, the main thread can |
| PoolRuns.StoppedWorkerExits | src/Worker.cc:58-78 | after the destructor's signal a thread starts no task and comes nearer to its exit with each step |
| PoolRuns.OthersLeaveStoppedWorker | src/Worker.cc:58-78 | no other thread's step undoes that |
| PoolRuns.StoppedWorkerTakesFewSteps | src/Worker.cc:17-42 | over any run from there on the thread takes at most four steps |
| PoolRuns.JoinDoesNotHang | src/Worker.cc:75-78 | while the destructor waits in the join, the thread it waits for can step |
| Windows.WindowedAt | speechsvr/online-decoder/online-feat-input.cc:122-134 | output frame t is made of the rows max(0, t - left) to t + right |
| Windows.WindowMoves | speechsvr/online-decoder/online-feat-input.cc:191-193 | consecutive windows differ by one row out and one row in |
| Windows.RotatedPush | speechsvr/online-decoder/online-feat-input.cc:123-125 | overwriting a ring's oldest element and moving on is a queue's pop and push |
| Splices.InitFeatWindow | speechsvr/online-decoder/online-feat-input.cc:84-92 | fills the window with row 0 up to the centre and the first rows after it |
| Splices.SplicedAt | speechsvr/online-decoder/online-feat-input.cc:126-135 | in both modes frame t is the transform of a vector whose entry i * dim + d is entry d of row max(0, t + i - left) |
| Splices.EntryOfFrame | speechsvr/DecodeWorker.cc:101-107 | without a transform these are the entries of the frame |
| Splices.OnlineLdaInput.Compute | speechsvr/online-decoder/online-feat-input.cc:95-137 | for any batching the outputs so far are the frames the definition gives for the rows so far; which batches are thrown away |
| Splices.LdaTransform | speechsvr/DecodeWorker.cc:68-111 | file mode produces the definition's frames for the whole matrix |
| Splices.NothingLost | speechsvr/online-decoder/online-feat-input.cc:102-109 | for any batching no frame is lost if and only if the first batch with rows is complete or as long as the window, or the stream yields no frame at all |
| Splices.ShortFirstBatchIsLost | speechsvr/online-decoder/online-feat-input.cc:102-109 | a stream of four rows whose first batch is one row yields two frames instead of three |
| Splices.SpliceOnline | speechsvr/online-decoder/online-feat-input.cc:95-137 | fed batch by batch, the online splice gives the definition's frames for everything after the batches thrown away |
| Splices.SpliceBothWays | speechsvr/DecodeWorker.cc:68-111 | online mode over any batching and file mode give the same frames exactly under that condition |
| Splices.OnlineDeltaInput.Compute | speechsvr/online-decoder/online-feat-input.cc:158-199 | the same for the shifted window |
| Splices.RingIsShiftedWindow | speechsvr/online-decoder/online-feat-input.cc:123-193 | after the same rows, ring and shifted window of equal reach hold the same queue |
| Cmns.OnlineCmn.ApplyCmvn | speechsvr/online-decoder/online-cmn.cc:15-82 | every output row is the input minus the mean of the last rows and minus what the running mean was off before the call, which no call changes |
| Cmns.OnlineCmn.CentredWhenCurrent | speechsvr/online-decoder/online-cmn.cc:58-81 | the rows are centred on the mean of the ring if and only if the running mean was current |
| Cmns.MixedCalls | speechsvr/online-decoder/online-cmn.cc:84-109 | it is not current when the other normalisation has moved the ring |
| Cmns.OnlineCmn.Roll | speechsvr/online-decoder/online-cmn.cc:59-71 | one row more moves the ring and the running mean alike |
| Cmns.OnlineCmn.ApplyCmvn2 | speechsvr/online-decoder/online-cmn.cc:84-109 | every output row is normalised by mean and variance of the last rows; a constant dimension has no value |
| Cmns.RingForgetsBatches | speechsvr/online-decoder/online-cmn.cc:22-31 | the ring is determined by the rows seen, not by how they were batched |
| Cmns.NormalisationIsExact | speechsvr/online-decoder/online-cmn.cc:136-159 | a value is missing exactly in a constant dimension; elsewhere the ring's own rows get mean 0 and variance 1 |
| Cmns.CentredRows | speechsvr/online-decoder/online-cmn.cc:44-56 | rows less their mean row have mean 0 in every dimension |
| Cmns.MeanRowRolls | speechsvr/online-decoder/online-cmn.cc:61-65 | the incremental update of the mean is the mean of the moved rows |
| Statistics.OnePassIsVariance | speechsvr/online-decoder/online-cmn.cc:141-149 | mean square minus squared mean is the mean squared deviation |
| Statistics.VarianceSign | speechsvr/online-decoder/online-cmn.cc:149-150 | it is never negative, and zero exactly for a constant column |
| Statistics.NormalisedMoments | speechsvr/online-decoder/online-cmn.cc:150-158 | with it positive, the normalised column has mean 0 and variance 1 |
| VadGates.OpensAtSpeech | speechsvr/online-decoder/online-vad.cc:171-196 | a closed gate lets nothing through until the first speech batch, which starts the speech and is let through |
| VadGates.OpenGateLetsThrough | speechsvr/online-decoder/online-vad.cc:176-196 | an open gate lets every batch through and is closed by an end alone |
| VadGates.StartsAndEndsAlternate | speechsvr/online-decoder/online-vad.cc:170-190 | at any time starts exceed ends by one while the gate is open and by none while it is closed |
| VadGates.EndFiresOnTime | speechsvr/online-decoder/online-vad.cc:182-188 | the end fires exactly on the non-speech batch number length / step + 1 since the start |
| VadGates.EndsInConsecutiveSilence | speechsvr/online-decoder/online-vad.cc:176-188 | an end closes length / step + 1 consecutive non-speech batches if and only if no speech batch has followed a non-speech one since the start |
| VadGates.EndWithoutConsecutiveSilence | speechsvr/online-decoder/online-vad.cc:176-188 | four decisions that start and end a speech without two neighbouring non-speech batches |
| VadGates.PassedMeaning | speechsvr/online-decoder/online-vad.cc:196-206 | the list of batches let through has exactly the emitted ones, each with its event |
| VadGates.PassedInOrder | speechsvr/online-decoder/online-vad.cc:170-227 | and has them in order, none twice |
| VadGates.FirstEmittedDoesNotEndSpeech | speechsvr/online-decoder/online-vad.cc:170-206 | the first emitted batch never ends the speech |
| VadGates.SpeechIsEmittedWhole | speechsvr/online-decoder/online-vad.cc:176-206 | every batch from a start to its end is emitted, and the end comes after the whole delay buffer has passed |
| VadGates.OnsetPasses | speechsvr/online-decoder/online-vad.cc:164-206 | every sample in the delay buffer at the start leaves through an emitted batch before the end |
| VadGates.SimpleEnergyVad.Process | speechsvr/online-decoder/online-vad.cc:52-76 | the detector's answer on every frame is that of the run of energies so far |
| VadGates.TurnsOnAtOnset | speechsvr/online-decoder/online-vad.cc:57-59 | after any run that leaves it off the detector stays off while no energy exceeds the onset, and turns on at the first that does |
| VadGates.SpeechGoesOn | speechsvr/online-decoder/online-vad.cc:61-64 | speech goes on while no energy is below the offset |
| VadGates.HangoverLasts | speechsvr/online-decoder/online-vad.cc:61-73 | after a frame below the offset the detector stays on for hangover + 1 frames that do not recover, and the next one turns it off |
| VadGates.RecoveryCancelsEnding | speechsvr/online-decoder/online-vad.cc:66-69 | a frame that recovers before that cancels the ending |
| VadInputs.ShiftBuffer | speechsvr/online-decoder/online-vad.cc:132-138 | the samples behind the shift move to the front |
| VadInputs.OnlineVadFeInput.Watch | speechsvr/online-decoder/online-vad.cc:171-193 | the gate follows the detector's decisions on the successive backs of the buffer |
| VadInputs.DecisionsAt | speechsvr/online-decoder/online-vad.cc:171-173 | a decision is made on the backs shown so far, its own included |
| GatedFeatures.BacksTile | speechsvr/online-decoder/online-vad.cc:164-218 | these backs are the stream, piece by piece, from the last step of the first buffer on |
| GatedFeatures.RowsOfAt | speechsvr/online-decoder/online-vad.cc:195-200 | the rows of a front are extracted when it and the fronts before it have been seen |
| VadInputs.OnlineVadFeInput.Compute | speechsvr/online-decoder/online-vad.cc:140-232 | with a constant batch size the buffer at iteration k is the stream from k * step on, and there is another iteration exactly while that lies in the stream; a call adds one batch to those let through, the front of its last buffer, or none if the stream has ended; a source that does not fill the first buffer gives one turn |
| VadInputs.EmittedBatchesTile | speechsvr/online-decoder/online-vad.cc:149-218 | the frames of consecutive emitted batches are consecutive frames of the stream |
| AudioSources.OnlineVectorSource.Read | speechsvr/online-decoder/online-audio-source.cc:140-154 | copies the next samples, as many as there are, and leaves the rest of the vector alone |
| AudioSources.FramesContinue | speechsvr/online-decoder/online-feat-input.cc:254-260 | frames extracted with the remainder carried over continue those extracted before without gap or repetition |
| AudioSources.OnlineFeInput.Compute | speechsvr/online-decoder/online-feat-input.cc:228-268 | over all calls the frames produced are those of all samples read, and the remainder is what they leave |
| Packets.WordsRoundTrip | speechsvr/RemoteAudioSource.cc:35-39 | samples sent as bytes are read back unchanged |
| Packets.HeaderRead | speechsvr/protocol.h:41-44 | the first eight bytes of a packet tell the length of the rest and its type |
| Packets.PayloadRead | speechsvr/protocol.h:50-70 | a request's number of samples and their size, a wave's samples, and a result's end mark and text are read back from the packet |
| Packets.EncodeIsInjective | speechsvr/protocol.cc:7-11 | two messages with the same bytes are the same |
| Packets.FirstMessage | src/Socket.cc:53-63 | bytes taken off a stream of packets, no more than the first one has, are its beginning; if all of it, the rest is the other packets |
| Packets.Socket.Receive | src/Socket.cc:53-63 | collects exactly the bytes asked for, however the stream is cut, and fails only if the stream ends before |
| Packets.Socket.SendPacket | speechsvr/protocol.cc:7-11 | appends the header and the payload |
| AudioPulls.ClientTakesMessages | speechsvr/speechclient.cc:101-126 | byte by byte, the client reads whole packets and stays aligned with them |
| AudioPulls.ServerTakesMessages | speechsvr/RemoteAudioSource.cc:26-39 | the server takes exactly the answer's bytes and logs its samples |
| AudioPulls.RunKeepsInv | speechsvr/speechclient.cc:100-126 | every segmentation and every interleaving with results keeps both ends aligned |
| AudioPulls.ReadLocally | speechsvr/online-decoder/online-audio-source.cc:140-154 | a local source answers a list of reads with consecutive stretches of the wave |
| AudioPullRuns.RemoteReadsAreLocal | speechsvr/RemoteAudioSource.cc:15-40 | in every reachable state the completed remote reads are those of a local source, no unexpected packet type was met, no read got more than it asked for, and the samples are the beginning of the wave |
| AudioPullRuns.NeverStuck | speechsvr/RemoteAudioSource.cc:25-37 | while a read is pending and samples are left one end can receive |
| AudioPullRuns.PendingReadCompletes | speechsvr/RemoteAudioSource.cc:25-39 | in any order of events the pending read completes within the number of bytes in flight |
| AudioPullRuns.ReadCompletesWhileSamplesAreLeft | speechsvr/speechclient.cc:100-111 | a started read can complete if and only if the reads before it have left samples |
| AudioPullRuns.RemoteAudioSource.Read | speechsvr/RemoteAudioSource.cc:14-40 | sends one request; on a wave packet replaces the first samples of the vector by the packet's and leaves the rest; gives up on another type or a stream that ends |
| AudioPullRuns.RepliesAreTheWave | speechsvr/speechclient.cc:99-111 | the client's replies, one after the other, hold the samples of the wave from the beginning, as many as are asked for and left |
| AudioPullRuns.AnswerRequests | speechsvr/speechclient.cc:99-127 | over any stream of requests and results the client replies to the requests in turn with the next samples, and is done exactly when the whole wave has been asked for |

## Left out

- FasterDecoder's search, pruning and hash list: the two steps of the search are arbitrary functions that meet the predicate `Lawful` (a non-empty active set; emitting steps out of active tokens; epsilon steps within a frame).
- Beam adaptation and timing in `Decode`: the search may depend on the step number in any way, which covers every beam.
- RemoveEpsLocal, GetLinearSymbolSequence and the symbol table: lattices and words are compared before epsilon removal, and words are ids.
- GMM scoring, MFCC extraction and the delta filter: arbitrary functions of a row, a stretch of samples or a window; the extractor is taken to return the frames of the samples it gets and the samples from the next frame's start on.
- TransitionModel's tables: arbitrary functions, with the assertions of the splitter as its preconditions.
- Rounding: features, costs and statistics are reals, and the square root is any function that meets `IsRoot`.
- A stream of 2^31 frames or more, which would overflow the frame counter.
- OnlineDecoders.OnlineFasterDecoder.FinishTraceBack: requires active tokens, if there are any, to be ahead of the immortal one, which every call from the result loop has; `StrandedSession` shows the one stream where they are not.
- EndOfUtterances.EndOfUtterance: requires an utterance short enough for silence to be asked for and the splitter's assertions on the traced ids, without which the code has no defined result; the program's only call of it is commented out.
- Splices.OnlineLdaInput.Compute: requires a first batch that was completely delivered to have a row and at least as many rows as the right context, since the window is filled from rows that do not exist otherwise; the same for `Splices.OnlineDeltaInput.Compute` and `Splices.LdaTransform`.
- OnlineCmvnInput::Compute: passes its input on to `ApplyCmvn2` and adds no state; `GatedFeatures` takes extraction and normalisation together as an arbitrary function of all samples emitted so far that makes one row a frame.
- GatedSessions.GatedSession: reads its audio from memory; `AudioPullRuns.RemoteReadsAreLocal` says that remote reads are the same up to the one that exhausts the wave, after which the gate reads no more.
- VadInputs.OnlineVadFeInput.Compute: one batch size for all calls, as the program asks for; what the code returns at the end of a silent stream is not written to, and `emitted == false` here.
- GatedFeatures.GatedBatches: what an output matrix holds that nothing is written to is an arbitrary function of what has been emitted before.
- VadInputs.OnlineVadFeInput.Watch: the detector is any function of the batches shown so far, so the fraction of speech frames in `DoVad` is not modelled.
- Several listeners of the gate: the program has one, and the counter would be advanced once per listener.
- Timeouts of audio sources: every read is taken to be without one.
- AudioPullRuns.RemoteAudioSource.Read: requires the client not to send more than was asked for, which the code does not check; `RemoteReadsAreLocal` shows that the program's client never does.
- The client's buffer of 65536 bytes for a result, the handshake before the online loop, and file mode's single packet.
- Byte order and struct padding: a header is two little-endian words, a request two more.
- A packet is put on a stream in one step; the other end may still receive it in any pieces.
- Thread code is modelled on values as a step system, not as classes: a step is a stretch of one thread between two points of interference, `Wait` and `Signal` of the semaphore are single steps, and the memory model is sequentially consistent.
- That a worker's thread is scheduled at all, and that `Work` ends: assumed by the bounds on steps.
- The destruction of a derived worker's own fields before `pthread_join`, several dispatchers, and assignment during destruction.
- Socket setup, the accept loop, UDP and PortAudio sources, wave files written for debugging, configuration and logging.
