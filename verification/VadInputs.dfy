/** The gated feature input: a delay buffer over the audio source, whose back is watched for speech and whose
    front is passed on while the gate is open. */
module VadInputs {
  import opened Basics
  import opened AudioSources
  import VadGates

  /** The stretch of `stream` the delay buffer should hold at iteration `k`. */
  function BufferAt(stream: seq<real>, k: nat, step: nat, length: nat): (b: seq<real>)
    requires k * step + length <= |stream|
  {
    stream[k * step..k * step + length]
  }

  /** The back of the delay buffer at iteration `k`: the newest `step` samples. */
  function BackAt(stream: seq<real>, k: nat, step: nat, length: nat): (b: seq<real>) {
    if step <= length && k * step + length <= |stream| then stream[k * step + length - step..k * step + length] else []
  }

  /** These are the backs of the first iterations. */
  ghost predicate AreBacks(backs: seq<seq<real>>, stream: seq<real>, step: nat, length: nat) {
    forall k :: 0 <= k < |backs| ==> backs[k] == BackAt(stream, k, step, length)
  }

  /** The front of the delay buffer at iteration `k`: the samples of one batch. */
  function FrontAt(stream: seq<real>, k: nat, step: nat, batch: nat): (b: seq<real>) {
    if k * step + batch <= |stream| then stream[k * step..k * step + batch] else []
  }

  /** Shifts a buffer down by `shift` samples; the samples at the back stay where they are, too. */
  method ShiftBuffer(buffer: array<real>, shift: nat)
    requires shift <= buffer.Length
    modifies buffer
    ensures buffer[..buffer.Length - shift] == old(buffer[shift..])
  {
    var temp := buffer[shift..];
    for i := 0 to |temp|
      invariant forall j :: 0 <= j < i ==> buffer[j] == temp[j]
    {
      buffer[i] := temp[i];
    }
  }

  /** The detector's decisions; a decision may depend on everything the detector has been shown so far. */
  function Decisions(detector: seq<seq<real>> -> bool, backs: seq<seq<real>>): (decisions: seq<bool>)
    ensures |decisions| == |backs|
  {
    if backs == [] then [] else Decisions(detector, backs[..|backs| - 1]) + [detector(backs)]
  }

  /** The batches let through, batch `k` included if it is emitted. */
  function AddNewest(passed: seq<VadGates.Emission>, k: nat, emitted: bool, event: VadGates.Event)
    : (passed': seq<VadGates.Emission>)
  {
    if emitted then passed + [VadGates.Emission(k, event)] else passed
  }

  /** Drops the front `shift` samples of the buffer and reads as many to its back. */
  method ReplaceFront(buffer: array<real>, source: OnlineVectorSource<real>, shift: nat) returns (received: nat)
    requires source.Valid() && shift <= buffer.Length
    modifies buffer, source
    ensures source.Valid() && received == Next(|source.src|, old(source.pos), shift)
    ensures source.pos == old(source.pos) + received
    ensures received == shift ==> buffer[..] == old(buffer[shift..]) + source.src[old(source.pos)..source.pos]
  {
    ShiftBuffer(buffer, shift);
    ghost var shifted := buffer[..buffer.Length - shift];
    received := source.Read(buffer, buffer.Length - shift, shift);
    if received == shift {
      assert buffer[..] == shifted + source.src[old(source.pos)..source.pos];
    }
  }

  /** Fills the buffer as far as the source goes, and tells what stream it then begins. */
  method FirstRead(buffer: array<real>, source: OnlineVectorSource<real>) returns (ghost stream: seq<real>)
    requires source.Valid() && source.pos == 0
    modifies buffer, source
    ensures source.Valid() && source.pos == if |source.src| < buffer.Length then |source.src| else buffer.Length
    ensures source.src <= stream
    ensures |stream| == if |source.src| < buffer.Length then buffer.Length else |source.src|
    ensures buffer[..] == stream[..buffer.Length]
  {
    var samplesRcv := source.Read(buffer, 0, buffer.Length);
    stream := if samplesRcv < buffer.Length then buffer[..] else source.src;
  }

  /** Decision `k` is made on what the detector has been shown up to and including back `k`. */
  lemma {:induction false} DecisionsAt(detector: seq<seq<real>> -> bool, backs: seq<seq<real>>, k: nat)
    requires k < |backs|
    ensures Decisions(detector, backs)[k] == detector(backs[..k + 1])
  {
    var n := |backs| - 1;
    if k < n {
      DecisionsAt(detector, backs[..n], k);
      assert backs[..n][..k + 1] == backs[..k + 1];
    } else {
      assert backs[..k + 1] == backs;
    }
  }

  class OnlineVadFeInput {
    const frameSize: nat
    const frameShift: nat
    const source: OnlineVectorSource<real>
    const detector: seq<seq<real>> -> bool

    var bufferLength: nat
    var bufferInit: bool
    var buffer: array<real>
    var batchVad: bool
    var hangoverCount: nat

    /** The batches shown to the detector so far, which stand for the detector's own state. */
    var shown: seq<seq<real>>
    /** The number of vectors asked for in every call. */
    ghost var nvec: nat
    /** The samples that pass through the buffer: those of the source or, if it has too few for the first read, those
        and whatever the buffer held behind them. */
    ghost var stream: seq<real>

    constructor (source: OnlineVectorSource<real>, detector: seq<seq<real>> -> bool, frameSize: nat, frameShift: nat,
                 bufferLength: nat)
      requires 0 < frameShift <= frameSize && source.Valid() && source.pos == 0
      ensures !bufferInit && this.bufferLength == bufferLength && !batchVad && hangoverCount == 0 && shown == []
      ensures this.source == source && this.detector == detector && this.frameSize == frameSize
                && this.frameShift == frameShift
    {
      this.source, this.detector, this.frameSize, this.frameShift := source, detector, frameSize, frameShift;
      this.bufferLength, bufferInit, buffer := bufferLength, false, new real[0];
      batchVad, hangoverCount, shown, nvec, stream := false, 0, [], 0, source.src;
    }

    function BatchSize(n: nat): (size: nat)
      requires n > 0
    {
      frameSize + (n - 1) * frameShift
    }

    ghost function StepSize(): (step: nat)
      reads this
    {
      nvec * frameShift
    }

    /** The gate has followed the detector's decisions on the successive backs of the delay buffer. */
    ghost predicate Watching()
      reads this
    {
      && 0 < frameShift <= frameSize && nvec > 0 && bufferInit
      && BatchSize(nvec) <= bufferLength
      && source.src <= stream && |stream| == (if |source.src| < bufferLength then bufferLength else |source.src|)
      && AreBacks(shown, stream, StepSize(), bufferLength)
      && VadGates.Gate(batchVad, hangoverCount) == VadGates.After(Decisions(detector, shown), StepSize(), bufferLength)
    }

    /** The source has been read for the buffer of iteration `k`. */
    ghost predicate ReadFor(k: nat)
      reads this, source
    {
      && source.Valid()
      && if |source.src| < bufferLength then k == 0 && source.pos == |source.src|
         else source.pos == k * StepSize() + bufferLength
    }

    /** The buffer of iteration `k` is full. */
    ghost predicate Holds(k: nat)
      reads this, buffer
    {
      && buffer.Length == bufferLength && k * StepSize() + bufferLength <= |stream|
      && buffer[..] == BufferAt(stream, k, StepSize(), bufferLength)
    }

    /** While all reads have been full: the buffer has moved on by one step a batch. */
    ghost predicate Tiling()
      reads this, source, buffer
    {
      Watching() && ReadFor(|shown|) && Holds(|shown|)
    }

    /** What the gate makes of the `k`-th batch. */
    ghost function OutcomeAt(k: nat): (o: VadGates.Outcome)
      reads this
      requires k < |shown|
    {
      VadGates.At(Decisions(detector, shown), k, StepSize(), bufferLength)
    }

    /** The batches the gate has let through so far. */
    ghost function PassedSoFar(): (passed: seq<VadGates.Emission>)
      reads `shown, `nvec, `bufferLength
    {
      VadGates.Passed(Decisions(detector, shown), nvec * frameShift, bufferLength)
    }

    /** Every buffer the detector has watched lies in the stream, and `more` tells whether the next one does, too. */
    ghost predicate Seen(more: bool)
      reads `shown, `nvec, `bufferLength, `stream
    {
      && shown != [] && (|shown| - 1) * (nvec * frameShift) + bufferLength <= |stream|
      && (more <==> |shown| * (nvec * frameShift) + bufferLength <= |stream|)
    }

    /** The input after a turn: it can go on exactly when `more` holds, and otherwise the source is exhausted. */
    ghost predicate Moved(more: bool)
      reads this, source, buffer
    {
      && Watching() && source.Valid() && Seen(more)
      && if more then Tiling() else source.pos == |source.src|
    }

    /** What the gate made of the last batch. */
    ghost predicate LastOutcome(emitted: bool, event: VadGates.Event)
      reads this
    {
      shown != [] && OutcomeAt(|shown| - 1).emitted == emitted && OutcomeAt(|shown| - 1).event == event
    }

    /** The front of the last buffer the detector was shown. */
    ghost function LastFront(): (front: seq<real>)
      reads this
      requires shown != [] && nvec > 0
    {
      FrontAt(stream, |shown| - 1, StepSize(), BatchSize(nvec))
    }

    /** What a turn has brought to light, when `passed` had been let through before. */
    ghost predicate LetThrough(passed: seq<VadGates.Emission>, front: seq<real>, emitted: bool, event: VadGates.Event)
      reads this
    {
      && LastOutcome(emitted, event)
      && PassedSoFar() == AddNewest(passed, |shown| - 1, emitted, event)
      && if emitted then nvec > 0 && front == LastFront() && |front| == BatchSize(nvec)
         else !batchVad && event == VadGates.NoEvent
    }

    lemma StepFits()
      requires Watching()
      ensures StepSize() <= BatchSize(nvec) <= bufferLength
    {
      assert nvec * frameShift == (nvec - 1) * frameShift + frameShift;
    }

    /** Moves the gate by one decision and tells the listener of its events. */
    method MoveGate(speech: bool, samplesReq: nat) returns (event: VadGates.Event, emitted: bool)
      modifies this`batchVad, this`hangoverCount
      ensures VadGates.Outcome(VadGates.Gate(batchVad, hangoverCount), event, emitted)
              == VadGates.Step(VadGates.Gate(old(batchVad), old(hangoverCount)), speech, samplesReq, bufferLength)
      ensures event == VadGates.SpeechEnd ==> old(batchVad)
      ensures emitted <==> old(batchVad) || batchVad
      ensures event != VadGates.NoEvent ==> emitted
    {
      var lastBatchVad := batchVad;
      batchVad := speech;
      event := VadGates.NoEvent;
      if batchVad != lastBatchVad {
        if !lastBatchVad && batchVad {
          event := VadGates.SpeechStart;
          hangoverCount := 0;
        } else if lastBatchVad && !batchVad {
          hangoverCount := hangoverCount + samplesReq;
          if hangoverCount > bufferLength {
            event := VadGates.SpeechEnd;
          } else {
            batchVad := true;
          }
        }
      }
      emitted := lastBatchVad || batchVad;
    }

    /** Watches one batch: asks the detector about the back of the buffer and moves the gate. */
    method Watch(n: nat) returns (event: VadGates.Event, emitted: bool)
      requires Tiling() && n == nvec
      modifies this`batchVad, this`hangoverCount, this`shown
      ensures Watching() && |shown| == old(|shown|) + 1 && old(shown) <= shown
      ensures LastOutcome(emitted, event)
      ensures PassedSoFar() == AddNewest(old(PassedSoFar()), |shown| - 1, emitted, event)
      ensures event == VadGates.SpeechEnd ==> old(batchVad)
      ensures emitted <==> old(batchVad) || batchVad
      ensures event != VadGates.NoEvent ==> emitted
    {
      StepFits();
      var samplesReq := n * frameShift;
      var back := buffer[bufferLength - samplesReq..];
      ghost var before := shown;
      BackOfBuffer(stream, |shown|, samplesReq, bufferLength);
      OneBackMore(before, stream, samplesReq, bufferLength);
      shown := shown + [back];
      WatchedOneMore(detector, before, back, samplesReq, bufferLength);
      event, emitted := MoveGate(detector(shown), samplesReq);
    }

    /** Drops the front step of the buffer and reads a new one to the back. */
    method Refill(n: nat) returns (full: bool)
      requires Watching() && n == nvec && |shown| > 0
      requires ReadFor(|shown| - 1) && Holds(|shown| - 1)
      modifies buffer, source
      ensures Watching() && source.Valid() && Seen(full)
      ensures full ==> Tiling() && source.pos == old(source.pos) + StepSize()
      ensures !full ==> source.pos == |source.src|
    {
      StepFits();
      ProductPositive(n, frameShift);
      var samplesReq := n * frameShift;
      var samplesRcv := ReplaceFront(buffer, source, samplesReq);
      full := samplesRcv == samplesReq;
      OneFactorMore(|shown| - 1, samplesReq);
      if full {
        BufferMoves(stream, |shown|, samplesReq, bufferLength);
      }
    }

    /** The samples of one batch at the front of the buffer. */
    method TakeFront(n: nat, ghost k: nat) returns (front: seq<real>)
      requires Watching() && n == nvec && Holds(k)
      ensures front == FrontAt(stream, k, StepSize(), BatchSize(n)) && |front| == BatchSize(n)
    {
      front := buffer[..frameSize + (n - 1) * frameShift];
      FrontOfBuffer(stream, k, StepSize(), bufferLength, BatchSize(n));
    }

    /** One turn: watches the back of the buffer, passes its front on while the gate is open, and moves on. */
    method Turn(n: nat) returns (front: seq<real>, emitted: bool, event: VadGates.Event, more: bool)
      requires Tiling() && n == nvec
      modifies this`batchVad, this`hangoverCount, this`shown, buffer, source
      ensures Moved(more) && |shown| == old(|shown|) + 1 && old(shown) <= shown
      ensures more ==> source.pos == old(source.pos) + StepSize()
      ensures LetThrough(old(PassedSoFar()), front, emitted, event)
      ensures event == VadGates.SpeechEnd ==> old(batchVad)
    {
      ghost var k := |shown|;
      front := [];
      event, emitted := Watch(n);
      if emitted {
        front := TakeFront(n, k);
      }
      ProductPositive(n, frameShift);
      more := Refill(n);
    }

    /** The first call fills the delay buffer. */
    method InitBuffer(n: nat)
      requires n > 0 && !bufferInit
      requires 0 < frameShift <= frameSize && shown == [] && !batchVad && hangoverCount == 0
      requires source.Valid() && source.pos == 0
      modifies this, source
      ensures Tiling() && nvec == n && fresh(buffer)
      ensures bufferLength == old(bufferLength) + BatchSize(n)
      ensures shown == [] && !batchVad && PassedSoFar() == []
    {
      bufferLength := bufferLength + (frameSize + (n - 1) * frameShift);
      buffer := new real[bufferLength];
      nvec := n;
      stream := FirstRead(buffer, source);
      bufferInit := true;
      FirstBuffer(stream, n * frameShift, bufferLength);
    }

    /** Blocks until there is speech: passes the detector over the stream, one step a batch, until the gate is open
        and the front of the buffer can be emitted, or the stream ends. */
    method AwaitSpeech(n: nat) returns (front: seq<real>, emitted: bool, event: VadGates.Event, more: bool)
      requires Tiling() && n == nvec
      modifies this`batchVad, this`hangoverCount, this`shown, buffer, source
      ensures Moved(more) && |shown| > old(|shown|) && old(shown) <= shown
      ensures more ==> source.pos >= old(source.pos) + StepSize()
      ensures LetThrough(old(PassedSoFar()), front, emitted, event) && (emitted || !more)
      ensures event == VadGates.SpeechEnd ==> old(batchVad)
    {
      front, emitted, event, more := Turn(n);
      while !emitted && more
        invariant Moved(more) && |shown| > old(|shown|) && old(shown) <= shown
        invariant more ==> source.pos >= old(source.pos) + StepSize()
        invariant LetThrough(old(PassedSoFar()), front, emitted, event)
        invariant event == VadGates.SpeechEnd ==> old(batchVad)
        decreases more && !emitted, |source.src| - source.pos
      {
        ProductPositive(n, frameShift);
        ghost var before := shown;
        front, emitted, event, more := Turn(n);
        PrefixTransitive(old(shown), before, shown);
      }
    }

    /** The next emitted batch.  Without speech to the end of the stream nothing is emitted: the program then hands
        back the uninitialised output it was given.  A source too short to fill the buffer gives one turn, over
        samples that in part were never read. */
    method Compute(n: nat) returns (front: seq<real>, emitted: bool, event: VadGates.Event, more: bool)
      requires n > 0
      requires if bufferInit then Tiling() && n == nvec
               else 0 < frameShift <= frameSize && shown == [] && !batchVad && hangoverCount == 0
                    && source.Valid() && source.pos == 0
      modifies this, buffer, source
      ensures Moved(more) && nvec == n && fresh({buffer} - {old(buffer)})
      ensures |shown| > old(|shown|) && old(shown) <= shown
      ensures more ==> source.pos >= old(source.pos) + n * frameShift
      ensures if old(bufferInit) then stream == old(stream) && bufferLength == old(bufferLength)
              else bufferLength == old(bufferLength) + BatchSize(n)
      ensures LetThrough(old(PassedSoFar()), front, emitted, event) && (emitted || !more)
      ensures event == VadGates.SpeechEnd ==> old(batchVad)
    {
      if !bufferInit {
        InitBuffer(n);
      }
      front, emitted, event, more := AwaitSpeech(n);
    }
  }

  lemma FirstBuffer(stream: seq<real>, step: nat, length: nat)
    requires length <= |stream|
    ensures 0 * step + length == length && BufferAt(stream, 0, step, length) == stream[..length]
  {
  }

  lemma FrontOfBuffer(stream: seq<real>, k: nat, step: nat, length: nat, batch: nat)
    requires batch <= length && k * step + length <= |stream|
    ensures BufferAt(stream, k, step, length)[..batch] == FrontAt(stream, k, step, batch)
  {
  }

  lemma ProductPositive(a: nat, b: nat)
    requires a > 0 && b > 0
    ensures a * b > 0
  {
  }

  /** The buffer moves on by one step. */
  lemma BufferMoves(stream: seq<real>, n: nat, step: nat, length: nat)
    requires n > 0 && step <= length && (n - 1) * step + length + step <= |stream|
    ensures n * step + length <= |stream|
    ensures var from := (n - 1) * step;
            BufferAt(stream, n - 1, step, length)[step..] + stream[from + length..from + length + step]
            == BufferAt(stream, n, step, length)
  {
    OneFactorMore(n - 1, step);
  }

  lemma BackOfBuffer(stream: seq<real>, k: nat, step: nat, length: nat)
    requires step <= length && k * step + length <= |stream|
    ensures BufferAt(stream, k, step, length)[length - step..] == BackAt(stream, k, step, length)
  {
  }

  lemma DecisionsGrow(detector: seq<seq<real>> -> bool, backs: seq<seq<real>>, back: seq<real>)
    ensures Decisions(detector, backs + [back]) == Decisions(detector, backs) + [detector(backs + [back])]
    ensures Decisions(detector, backs + [back])[..|backs|] == Decisions(detector, backs)
  {
    assert (backs + [back])[..|backs|] == backs;
  }

  lemma OneBackMore(backs: seq<seq<real>>, stream: seq<real>, step: nat, length: nat)
    requires AreBacks(backs, stream, step, length)
    ensures AreBacks(backs + [BackAt(stream, |backs|, step, length)], stream, step, length)
    ensures backs <= backs + [BackAt(stream, |backs|, step, length)]
  {
  }

  /** What the gate makes of one back more. */
  lemma WatchedOneMore(detector: seq<seq<real>> -> bool, backs: seq<seq<real>>, back: seq<real>, step: nat, length: nat)
    ensures var before, after := Decisions(detector, backs), Decisions(detector, backs + [back]);
            var o := VadGates.Step(VadGates.After(before, step, length), detector(backs + [back]), step, length);
            && VadGates.At(after, |backs|, step, length) == o && VadGates.After(after, step, length) == o.gate
            && VadGates.Passed(after, step, length)
               == AddNewest(VadGates.Passed(before, step, length), |backs|, o.emitted, o.event)
  {
    DecisionsGrow(detector, backs, back);
    VadGates.OneDecisionMore(Decisions(detector, backs), detector(backs + [back]), step, length);
  }

  // ----- The emitted batches tile the stream -----

  /** A batch of `nvec` vectors has `nvec` frames. */
  lemma FramesInBatch(nvec: nat, size: nat, shift: nat)
    requires nvec > 0 && 0 < shift <= size
    ensures NumFrames(size + (nvec - 1) * shift, size, shift) == nvec
  {
    var n := size + (nvec - 1) * shift;
    NumFramesMeaning(n, size, shift, nvec - 1);
    NumFramesMeaning(n, size, shift, nvec);
    assert nvec * shift == (nvec - 1) * shift + shift;
  }

  /** Frames extracted from a stretch of the stream that starts where frame `first` does. */
  lemma FramesOfStretch(stream: seq<real>, first: nat, nvec: nat, batch: nat, size: nat, shift: nat)
    requires 0 < shift <= size && nvec > 0 && batch == size + (nvec - 1) * shift
    requires first * shift + batch <= |stream|
    ensures first + nvec <= NumFrames(|stream|, size, shift)
    ensures Frames(stream[first * shift..first * shift + batch], size, shift)
              == Frames(stream, size, shift)[first..first + nvec]
  {
    var from := first * shift;
    var rest, front := stream[from..], stream[from..from + batch];
    FramesInBatch(nvec, size, shift);
    NumFramesMeaning(|stream|, size, shift, first);
    FramesOfDropped(stream, size, shift, first);
    TakeOfDrop(stream, from, batch);
    TakeAndDrop(rest, batch);
    FramesOfPrefix(front, rest[batch..], size, shift);
    TakeOfDrop(Frames(stream, size, shift), first, nvec);
  }

  /** The frames of the batch emitted at iteration `k` are the `k`-th `nvec` frames of the stream. */
  lemma FramesOfBatch(stream: seq<real>, k: nat, nvec: nat, size: nat, shift: nat)
    requires nvec > 0 && 0 < shift <= size
    requires k * (nvec * shift) + (size + (nvec - 1) * shift) <= |stream|
    ensures k * nvec <= (k + 1) * nvec <= NumFrames(|stream|, size, shift)
    ensures Frames(FrontAt(stream, k, nvec * shift, size + (nvec - 1) * shift), size, shift)
            == Frames(stream, size, shift)[k * nvec..(k + 1) * nvec]
  {
    assert (k + 1) * nvec == k * nvec + nvec;
    assert k * (nvec * shift) == (k * nvec) * shift;
    FramesOfStretch(stream, k * nvec, nvec, size + (nvec - 1) * shift, size, shift);
  }

  /** The frames of the batches emitted at iterations `first`, ..., `end - 1`, one batch after the other. */
  function EmittedFrames(stream: seq<real>, first: nat, end: nat, nvec: nat, size: nat, shift: nat)
    : (frames: seq<seq<real>>)
    requires nvec > 0 && 0 < shift <= size
    decreases end
  {
    if end <= first then []
    else EmittedFrames(stream, first, end - 1, nvec, size, shift)
         + Frames(FrontAt(stream, end - 1, nvec * shift, size + (nvec - 1) * shift), size, shift)
  }

  /** Consecutive emitted batches tile the stream: their frames are consecutive frames of the stream, without a gap
      and without a repetition -- the frames that extraction with a carried remainder produces. */
  lemma {:induction false} EmittedBatchesTile(stream: seq<real>, first: nat, end: nat, nvec: nat, size: nat, shift: nat)
    requires nvec > 0 && 0 < shift <= size && first < end
    requires (end - 1) * (nvec * shift) + (size + (nvec - 1) * shift) <= |stream|
    ensures first * nvec <= end * nvec <= NumFrames(|stream|, size, shift)
    ensures EmittedFrames(stream, first, end, nvec, size, shift)
              == Frames(stream, size, shift)[first * nvec..end * nvec]
    decreases end
  {
    MultiplyMonotonic(first, end - 1, nvec);
    FramesOfBatch(stream, end - 1, nvec, size, shift);
    if first < end - 1 {
      MultiplyMonotonic(end - 2, end - 1, nvec * shift);
      EmittedBatchesTile(stream, first, end - 1, nvec, size, shift);
      SlicesJoin(Frames(stream, size, shift), first * nvec, (end - 1) * nvec, end * nvec);
    } else {
      assert EmittedFrames(stream, first, first, nvec, size, shift) == [];
    }
  }
}
