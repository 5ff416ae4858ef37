/** Feature batches of gated speech: audio through the gate, extraction and the context window. */
module GatedFeatures {
  import opened Basics
  import AudioSources
  import VadGates
  import opened VadInputs
  import opened Splices
  import opened Decodables
  import opened DecodeSessions

  /** Makes rows of the newest of the emitted batches of samples, one a frame; what it makes may depend on all of
      them. */
  ghost predicate RowPerFrame(extract: seq<seq<real>> -> seq<Row>, size: nat, shift: nat)
    requires 0 < shift <= size
  {
    forall fronts: seq<seq<real>> :: fronts != [] ==>
      |extract(fronts)| == AudioSources.NumFrames(|fronts[|fronts| - 1]|, size, shift)
  }

  // ----- What the chain of stages is to yield -----

  /** The stages as they are set up: the detector, the extraction, what an output matrix holds that is not written to
      (which may depend on all that has been emitted), the number of rows asked for in a call, the sizes of frames,
      the delay beyond one batch, and the window. */
  datatype Chain = Chain(detector: seq<seq<real>> -> bool, extract: seq<seq<real>> -> seq<Row>,
                         unwritten: seq<seq<real>> -> seq<Row>, nvec: nat, size: nat, shift: nat, delay: nat,
                         left: nat, right: nat, transform: Row -> Row)
  {
    ghost predicate Sound() {
      && nvec > 0 && 0 < shift <= size && right <= nvec && Step() > 0
      && RowPerFrame(extract, size, shift) && forall fronts: seq<seq<real>> :: |unwritten(fronts)| == nvec
    }

    function Step(): (n: nat) {
      nvec * shift
    }

    function BatchSize(): (n: nat) {
      if nvec == 0 then 0 else size + (nvec - 1) * shift
    }

    /** The length of the delay buffer. */
    function Length(): (n: nat) {
      delay + BatchSize()
    }
  }

  /** The samples that pass through the delay buffer: those of the source or, if it has too few to fill the buffer,
      those and whatever the buffer held behind them. */
  ghost predicate PassesThrough(c: Chain, src: seq<real>, stream: seq<real>) {
    src <= stream && |stream| == if |src| < c.Length() then c.Length() else |src|
  }

  /** How often the buffer is full in all. */
  function Iterations(c: Chain, samples: nat): (n: nat)
    requires c.Step() > 0 && samples >= c.Length()
    ensures n > 0
  {
    (samples - c.Length()) / c.Step() + 1
  }

  /** The backs of the first `n` buffers. */
  function BacksOf(c: Chain, stream: seq<real>, n: nat): (backs: seq<seq<real>>) {
    seq(n, (k: nat) => BackAt(stream, k, c.Step(), c.Length()))
  }

  /** The detector's decisions on the backs of the successive buffers. */
  function DecisionsOn(c: Chain, stream: seq<real>): (decisions: seq<bool>)
    requires c.Step() > 0 && |stream| >= c.Length()
    ensures |decisions| == Iterations(c, |stream|)
  {
    Decisions(c.detector, BacksOf(c, stream, Iterations(c, |stream|)))
  }

  /** The batches the gate makes of these decisions. */
  function PassedOn(c: Chain, stream: seq<real>): (passed: seq<VadGates.Emission>)
    requires c.Step() > 0 && |stream| >= c.Length()
  {
    VadGates.Passed(DecisionsOn(c, stream), c.Step(), c.Length())
  }

  /** Whether the gate is closed when the stream ends. */
  predicate EndsSilent(c: Chain, stream: seq<real>)
    requires c.Step() > 0 && |stream| >= c.Length()
  {
    !VadGates.At(DecisionsOn(c, stream), Iterations(c, |stream|) - 1, c.Step(), c.Length()).emitted
  }

  /** The fronts of the buffer at these batches. */
  function FrontsOf(c: Chain, stream: seq<real>, passed: seq<VadGates.Emission>): (fronts: seq<seq<real>>) {
    seq(|passed|, k requires 0 <= k < |passed| => FrontAt(stream, passed[k].at, c.Step(), c.BatchSize()))
  }

  /** The rows extracted from these fronts, one front after the other. */
  function RowsOf(extract: seq<seq<real>> -> seq<Row>, fronts: seq<seq<real>>): (rows: seq<Row>) {
    if fronts == [] then [] else RowsOf(extract, fronts[..|fronts| - 1]) + extract(fronts)
  }

  /** The rows of front `k` are what is extracted when it and the fronts before it have been seen. */
  lemma {:induction false} RowsOfAt(extract: seq<seq<real>> -> seq<Row>, fronts: seq<seq<real>>)
    ensures RowsOf(extract, fronts) == Concat(seq(|fronts|, k requires 0 <= k < |fronts| => extract(fronts[..k + 1])))
  {
    var pieces := seq(|fronts|, k requires 0 <= k < |fronts| => extract(fronts[..k + 1]));
    if fronts != [] {
      var n := |fronts| - 1;
      var earlier := seq(n, k requires 0 <= k < n => extract(fronts[..n][..k + 1]));
      RowsOfAt(extract, fronts[..n]);
      forall k | 0 <= k < n
        ensures pieces[k] == earlier[k]
      {
        assert fronts[..n][..k + 1] == fronts[..k + 1];
      }
      assert pieces[..n] == earlier;
      assert fronts[..n + 1] == fronts;
    }
  }

  lemma BackInPlace(c: Chain, stream: seq<real>, n: nat) returns (a: nat, b: nat)
    requires 0 < c.Step() <= c.Length() <= |stream| && 0 < n <= Iterations(c, |stream|)
    ensures var from := c.Length() - c.Step();
            && a == from + (n - 1) * c.Step() && b == from + n * c.Step() && from <= a <= b <= |stream|
            && BackAt(stream, n - 1, c.Step(), c.Length()) == stream[a..b]
  {
    var step := c.Step();
    var before := (n - 1) * step;
    QuotientAtLeast(|stream| - c.Length(), step, n - 1);
    OneFactorMore(n - 1, step);
    a := c.Length() - step + before;
    b := a + step;
  }

  /** The backs the detector watches are the stream from the end of the first buffer, less one step, on. */
  lemma {:induction false} BacksTile(c: Chain, stream: seq<real>, n: nat)
    requires 0 < c.Step() <= c.Length() <= |stream| && n <= Iterations(c, |stream|)
    ensures var from := c.Length() - c.Step();
            from + n * c.Step() <= |stream| && Concat(BacksOf(c, stream, n)) == stream[from..from + n * c.Step()]
  {
    if n > 0 {
      var from := c.Length() - c.Step();
      var backs, earlier := BacksOf(c, stream, n), BacksOf(c, stream, n - 1);
      BacksTile(c, stream, n - 1);
      var a, b := BackInPlace(c, stream, n);
      assert backs == earlier + [BackAt(stream, n - 1, c.Step(), c.Length())];
      ConcatOneMore(earlier, BackAt(stream, n - 1, c.Step(), c.Length()));
      SlicesJoin(stream, from, a, b);
    }
  }

  /** All rows that reach the window.  A stream that ends in silence adds an output that nothing was written to. */
  function RowsIn(c: Chain, stream: seq<real>): (rows: seq<Row>)
    requires c.Step() > 0 && |stream| >= c.Length()
  {
    var fronts := FrontsOf(c, stream, PassedOn(c, stream));
    RowsOf(c.extract, fronts) + if EndsSilent(c, stream) then c.unwritten(fronts) else []
  }

  /** The sizes of the batches of feature rows: the first one lacks the rows that only complete the context. */
  ghost predicate Sized(batches: seq<Batch>, nvec: nat, right: nat) {
    forall k :: 0 <= k < |batches| ==> |batches[k].rows| == if k == 0 then nvec - right else nvec
  }

  /** The batches a stream is to yield: one for every batch the gate lets through, and one more if it ends in silence;
      together they are the spliced rows; and a batch ends the speech when the gate did so as it let it through. */
  ghost predicate Yields(c: Chain, stream: seq<real>, batches: seq<Batch>)
    requires c.Step() > 0 && |stream| >= c.Length()
  {
    var passed := PassedOn(c, stream);
    && Stream(batches) == Spliced(RowsIn(c, stream), c.left, c.right, c.transform)
    && |batches| == |passed| + (if EndsSilent(c, stream) then 1 else 0)
    && Sized(batches, c.nvec, c.right)
    && (forall k :: 0 <= k < |batches| ==> (batches[k].more <==> k + 1 < |batches|))
    && (forall k :: 0 <= k < |batches| ==>
          (batches[k].endsSpeech <==> k < |passed| && passed[k].event == VadGates.SpeechEnd))
  }

  lemma {:induction false} SizedOffset(batches: seq<Batch>, nvec: nat, right: nat, k: nat)
    requires Sized(batches, nvec, right) && right <= nvec && 0 < k <= |batches|
    ensures Offset(batches, k) + right == k * nvec
  {
    if k > 1 {
      SizedOffset(batches, nvec, right, k - 1);
    }
    assert k * nvec == (k - 1) * nvec + nvec;
  }

  lemma SameOffset(a: seq<Batch>, b: seq<Batch>, nvec: nat, right: nat, k: nat)
    requires Sized(a, nvec, right) && Sized(b, nvec, right) && right <= nvec && k <= |a| == |b|
    ensures Offset(a, k) == Offset(b, k)
  {
    if k > 0 {
      SizedOffset(a, nvec, right, k);
      SizedOffset(b, nvec, right, k);
    }
  }

  lemma SameRows(a: seq<Batch>, b: seq<Batch>, nvec: nat, right: nat, k: nat)
    requires Sized(a, nvec, right) && Sized(b, nvec, right) && right <= nvec && k < |a| == |b|
    requires Stream(a) == Stream(b)
    ensures a[k].rows == b[k].rows
  {
    SameOffset(a, b, nvec, right, k);
    forall i | 0 <= i < |a[k].rows|
      ensures a[k].rows[i] == b[k].rows[i]
    {
      StreamAt(a, k, i);
      StreamAt(b, k, i);
    }
  }

  /** A stream yields one list of batches. */
  lemma YieldsIsDetermined(c: Chain, stream: seq<real>, a: seq<Batch>, b: seq<Batch>)
    requires c.Sound() && |stream| >= c.Length()
    requires Yields(c, stream, a) && Yields(c, stream, b)
    ensures a == b
  {
    forall k | 0 <= k < |a|
      ensures a[k] == b[k]
    {
      SameRows(a, b, c.nvec, c.right, k);
    }
  }

  /** The rows of the emitted fronts, and nothing else, are what the window makes frames of, if and only if the gate is
      open when the stream ends. */
  lemma OnlySpeechIsSpliced(c: Chain, stream: seq<real>, batches: seq<Batch>)
    requires c.Sound() && c.nvec > c.right && |stream| >= c.Length() && Yields(c, stream, batches)
    ensures Stream(batches)
            == Spliced(RowsOf(c.extract, FrontsOf(c, stream, PassedOn(c, stream))), c.left, c.right, c.transform)
            <==> !EndsSilent(c, stream)
  {
    var fronts := FrontsOf(c, stream, PassedOn(c, stream));
    var rows := RowsOf(c.extract, fronts);
    SplicedLength(rows, c.left, c.right, c.transform);
    SplicedLength(RowsIn(c, stream), c.left, c.right, c.transform);
    if EndsSilent(c, stream) {
      assert |RowsIn(c, stream)| == |rows| + c.nvec;
    } else {
      assert RowsIn(c, stream) == rows + [] == rows;
    }
  }

  /** A stream without speech still yields a batch: that of the rows nothing was written to. */
  lemma SilentStream(c: Chain, stream: seq<real>, batches: seq<Batch>)
    requires c.Sound() && |stream| >= c.Length() && Yields(c, stream, batches)
    requires forall k :: 0 <= k < Iterations(c, |stream|) ==> !DecisionsOn(c, stream)[k]
    ensures batches == [Batch(Spliced(c.unwritten([]), c.left, c.right, c.transform), false, false)]
  {
    VadGates.SilenceIsNotPassed(DecisionsOn(c, stream), c.Step(), c.Length());
    assert EndsSilent(c, stream);
    assert RowsIn(c, stream) == c.unwritten([]);
    assert |batches| == 1;
    assert Stream(batches) == StreamTo(batches, 0) + batches[0].rows == batches[0].rows;
    assert batches == [batches[0]];
  }

  lemma OneDecision(c: Chain, stream: seq<real>)
    requires c.Step() > 0 && |stream| == c.Length()
    ensures EndsSilent(c, stream) <==> !c.detector(BacksOf(c, stream, 1))
  {
    var backs := BacksOf(c, stream, 1);
    assert backs[..0] == [] && DecisionsOn(c, stream) == [c.detector(backs)];
    assert [c.detector(backs)][..0] == [];
  }

  /** A detector that listens for one sample, and an extraction of a constant row a sample. */
  predicate HearsOne(backs: seq<seq<real>>) {
    backs != [] && backs[|backs| - 1] == [1.0]
  }

  function ZeroRows(fronts: seq<seq<real>>): (rows: seq<Row>) {
    if fronts == [] then [] else seq(|fronts[|fronts| - 1]|, i => [0.0])
  }

  lemma ZeroRowPerSample()
    ensures RowPerFrame(ZeroRows, 1, 1)
  {
  }

  lemma OneBack(c: Chain, x: real, y: real)
    requires c.Step() == 1 && c.Length() == 2
    ensures BacksOf(c, [x, y], 1) == [[y]]
  {
    assert BackAt([x, y], 0, 1, 2) == [y];
  }

  /** A source that does not fill the delay buffer leaves the outcome open: with nothing but what the buffer held
      behind its one sample being different, the detector finds speech or does not. */
  lemma ShortSourceLeavesItOpen() returns (c: Chain, src: seq<real>, a: seq<real>, b: seq<real>)
    ensures c.Sound() && |src| < c.Length() && PassesThrough(c, src, a) && PassesThrough(c, src, b)
    ensures EndsSilent(c, a) && !EndsSilent(c, b)
  {
    c := Chain(HearsOne, ZeroRows, fronts => [[0.0]], 1, 1, 1, 1, 0, 0, (row: Row) => row);
    src, a, b := [0.0], [0.0, 0.0], [0.0, 1.0];
    ZeroRowPerSample();
    OneBack(c, 0.0, 0.0);
    OneBack(c, 0.0, 1.0);
    OneDecision(c, a);
    OneDecision(c, b);
  }

  // ----- What is never emitted -----

  lemma IterationsFit(c: Chain, samples: nat)
    requires c.Step() > 0 && samples >= c.Length()
    ensures var k := Iterations(c, samples) - 1;
            samples - (k * c.Step() + c.Length()) == (samples - c.Length()) % c.Step()
  {
  }

  /** The last samples of a stream are never emitted: what the buffer holds behind the last front, and the last read
      if it comes up short.  They are the delay and the rest of a division, and if the gate is open at the end the
      sample before them is the last of a front. */
  lemma TailStaysBehind(c: Chain, stream: seq<real>)
    requires c.Sound() && |stream| >= c.Length()
    ensures var end := |stream| - (c.delay + (|stream| - c.Length()) % c.Step());
            var passed := PassedOn(c, stream);
            && (forall i :: 0 <= i < |passed| ==> passed[i].at * c.Step() + c.BatchSize() <= end)
            && (EndsSilent(c, stream) ||
                exists i :: 0 <= i < |passed| && passed[i].at * c.Step() + c.BatchSize() == end)
  {
    var k := Iterations(c, |stream|) - 1;
    var decisions, passed := DecisionsOn(c, stream), PassedOn(c, stream);
    IterationsFit(c, |stream|);
    forall i | 0 <= i < |passed|
      ensures passed[i].at * c.Step() <= k * c.Step()
    {
      assert passed[i] in passed;
      VadGates.PassedMeaning(decisions, c.Step(), c.Length(), passed[i]);
      MultiplyMonotonic(passed[i].at, k, c.Step());
    }
    if !EndsSilent(c, stream) {
      var last := VadGates.Emission(k, VadGates.At(decisions, k, c.Step(), c.Length()).event);
      VadGates.PassedMeaning(decisions, c.Step(), c.Length(), last);
      var i :| 0 <= i < |passed| && passed[i] == last;
      assert passed[i].at * c.Step() == k * c.Step();
    }
  }

  // ----- The calls of the chain -----

  /** Before the first call. */
  ghost predicate Untouched(vad: OnlineVadFeInput)
    reads vad, vad.source
  {
    && 0 < vad.frameShift <= vad.frameSize
    && !vad.bufferInit && vad.shown == [] && !vad.batchVad && vad.hangoverCount == 0
    && vad.source.Valid() && vad.source.pos == 0
  }

  /** The chain that a gate, an extraction and a window make. */
  ghost predicate Joined(c: Chain, vad: OnlineVadFeInput, lda: OnlineLdaInput) {
    && c.detector == vad.detector && c.size == vad.frameSize && c.shift == vad.frameShift
    && c.left == lda.left && c.right == lda.right && c.transform == lda.transform
  }

  /** Between two calls of the gate, or after the last one. */
  ghost predicate Running(c: Chain, vad: OnlineVadFeInput, more: bool)
    reads vad, vad.source, vad.buffer
  {
    vad.Moved(more) && vad.nvec == c.nvec && vad.bufferLength == c.Length()
  }

  /** The stages between two calls: before the first one or, once they are started, as the last one left them. */
  ghost predicate Going(c: Chain, vad: OnlineVadFeInput, lda: OnlineLdaInput, started: bool, more: bool)
    reads vad, vad.source, vad.buffer, lda, lda.featWindow
  {
    && lda.Valid() && (started <==> lda.featWindow.Length > 0) && vad.source.Valid()
    && if started then Running(c, vad, more) else more && Untouched(vad) && vad.bufferLength == c.delay
  }

  /** The rows a call passes on to the window. */
  function NextRows(c: Chain, fronts: seq<seq<real>>, emitted: bool): (rows: seq<Row>) {
    if emitted then c.extract(fronts) else c.unwritten(fronts)
  }

  function AddFront(c: Chain, stream: seq<real>, fronts: seq<seq<real>>, k: nat, emitted: bool)
    : (fronts': seq<seq<real>>)
  {
    if emitted then fronts + [FrontAt(stream, k, c.Step(), c.BatchSize())] else fronts
  }

  /** What the calls so far have made of a stream; `silent` tells that the last one found no more speech. */
  ghost predicate Produced(c: Chain, stream: seq<real>, passed: seq<VadGates.Emission>, fronts: seq<seq<real>>,
                           history: seq<Row>, batches: seq<Batch>, silent: bool)
  {
    && fronts == FrontsOf(c, stream, passed)
    && history == RowsOf(c.extract, fronts) + (if silent then c.unwritten(fronts) else [])
    && Stream(batches) == Spliced(history, c.left, c.right, c.transform)
    && |batches| == |passed| + (if silent then 1 else 0)
    && forall k :: 0 <= k < |batches| ==>
         (batches[k].endsSpeech <==> k < |passed| && passed[k].event == VadGates.SpeechEnd)
  }

  lemma ProducedOneMore(c: Chain, stream: seq<real>, passed: seq<VadGates.Emission>, fronts: seq<seq<real>>,
                        history: seq<Row>, batches: seq<Batch>, k: nat, emitted: bool, event: VadGates.Event,
                        batch: Batch)
    requires Produced(c, stream, passed, fronts, history, batches, false)
    requires batch.endsSpeech <==> emitted && event == VadGates.SpeechEnd
    requires var fronts' := AddFront(c, stream, fronts, k, emitted);
             Spliced(history, c.left, c.right, c.transform) + batch.rows
             == Spliced(history + NextRows(c, fronts', emitted), c.left, c.right, c.transform)
    ensures var fronts' := AddFront(c, stream, fronts, k, emitted);
            Produced(c, stream, AddNewest(passed, k, emitted, event), fronts',
                     history + NextRows(c, fronts', emitted), batches + [batch], !emitted)
  {
    var fronts' := AddFront(c, stream, fronts, k, emitted);
    StreamOneMore(batches, batch);
    if emitted {
      assert fronts'[..|fronts|] == fronts;
      assert fronts' == FrontsOf(c, stream, AddNewest(passed, k, emitted, event));
      assert history + c.extract(fronts') == RowsOf(c.extract, fronts') + [];
    } else {
      assert history == RowsOf(c.extract, fronts);
    }
  }

  lemma {:induction false} StreamToStays(batches: seq<Batch>, batch: Batch, k: nat)
    requires k <= |batches|
    ensures StreamTo(batches + [batch], k) == StreamTo(batches, k)
  {
    if k > 0 {
      StreamToStays(batches, batch, k - 1);
    }
  }

  lemma StreamOneMore(batches: seq<Batch>, batch: Batch)
    ensures Stream(batches + [batch]) == Stream(batches) + batch.rows
  {
    StreamToStays(batches, batch, |batches|);
  }

  /** The number of rows an online splice has let out of those it has taken in. */
  lemma RowsLetOut(c: Chain, before: seq<Row>, rows: seq<Row>, output: seq<Row>)
    requires Spliced(before, c.left, c.right, c.transform) + output
             == Spliced(before + rows, c.left, c.right, c.transform)
    requires |rows| >= c.right && (before == [] || |before| >= c.right)
    ensures |output| == if before == [] then |rows| - c.right else |rows|
  {
  }

  lemma RowsOfFront(c: Chain, fronts: seq<seq<real>>, front: seq<real>)
    requires c.Sound() && |front| == c.BatchSize()
    ensures |c.extract(fronts + [front])| == c.nvec
  {
    FramesInBatch(c.nvec, c.size, c.shift);
  }

  /** The rows of the gate's next batch. */
  method ComputeRows(c: Chain, vad: OnlineVadFeInput, ghost lda: OnlineLdaInput, fronts: seq<seq<real>>)
    returns (rows: seq<Row>, more: bool, fronts': seq<seq<real>>, emitted: bool, event: VadGates.Event)
    requires c.Sound() && Joined(c, vad, lda)
    requires if vad.bufferInit then Running(c, vad, true) else Untouched(vad) && vad.bufferLength == c.delay
    modifies vad, vad.buffer, vad.source
    ensures Running(c, vad, more) && fresh({vad.buffer} - {old(vad.buffer)})
    ensures old(vad.bufferInit) ==> vad.stream == old(vad.stream)
    ensures old(vad.source.pos) + (if more then c.Step() else 0) <= vad.source.pos
    ensures vad.PassedSoFar() == AddNewest(old(vad.PassedSoFar()), |vad.shown| - 1, emitted, event)
    ensures vad.LastOutcome(emitted, event) && (!emitted ==> !more && event == VadGates.NoEvent)
    ensures fronts' == AddFront(c, vad.stream, fronts, |vad.shown| - 1, emitted)
    ensures rows == NextRows(c, fronts', emitted) && |rows| == c.nvec
    ensures event == VadGates.SpeechEnd ==> old(vad.batchVad)
  {
    var front;
    front, emitted, event, more := vad.Compute(c.nvec);
    fronts' := fronts;
    if emitted {
      fronts' := fronts + [front];
      rows := c.extract(fronts');
      RowsOfFront(c, fronts, front);
    } else {
      rows := c.unwritten(fronts);
    }
  }

  /** What a call adds to the rows in the window's history and to the batches. */
  ghost predicate Adds(c: Chain, history: seq<Row>, batch: Batch, fronts: seq<seq<real>>, history': seq<Row>,
                       emitted: bool, event: VadGates.Event)
  {
    && |NextRows(c, fronts, emitted)| == c.nvec && history' == history + NextRows(c, fronts, emitted)
    && Spliced(history, c.left, c.right, c.transform) + batch.rows == Spliced(history', c.left, c.right, c.transform)
    && |batch.rows| == (if history == [] then c.nvec - c.right else c.nvec)
    && (batch.endsSpeech <==> emitted && event == VadGates.SpeechEnd)
    && (!emitted ==> !batch.more)
  }

  /** One call of the chain: those rows, spliced. */
  method NextBatch(c: Chain, vad: OnlineVadFeInput, lda: OnlineLdaInput, fronts: seq<seq<real>>)
    returns (batch: Batch, fronts': seq<seq<real>>, ghost emitted: bool, ghost event: VadGates.Event)
    requires c.Sound() && Joined(c, vad, lda)
    requires Going(c, vad, lda, lda.history != [], true)
    requires lda.history == [] || |lda.history| >= lda.right
    modifies vad, vad.buffer, vad.source, lda, lda.featWindow
    ensures fresh({vad.buffer} - {old(vad.buffer)}) && fresh({lda.featWindow} - {old(lda.featWindow)})
    ensures Going(c, vad, lda, true, batch.more)
    ensures old(lda.history) != [] ==> vad.stream == old(vad.stream)
    ensures old(vad.source.pos) + (if batch.more then c.Step() else 0) <= vad.source.pos
    ensures vad.PassedSoFar() == AddNewest(old(vad.PassedSoFar()), |vad.shown| - 1, emitted, event)
    ensures vad.LastOutcome(emitted, event)
    ensures fronts' == AddFront(c, vad.stream, fronts, |vad.shown| - 1, emitted)
    ensures Adds(c, old(lda.history), batch, fronts', lda.history, emitted, event)
    ensures batch.endsSpeech ==> old(vad.batchVad)
  {
    ghost var before := lda.history;
    var rows, more, isEmitted, happened;
    rows, more, fronts', isEmitted, happened := ComputeRows(c, vad, lda, fronts);
    var output := lda.Compute(rows, c.nvec);
    RowsLetOut(c, before, rows, output);
    batch := Batch(output, more, happened == VadGates.SpeechEnd);
    emitted, event := isEmitted, happened;
  }

  /** The batches so far: all of them are followed by more, unless the last one ends the stream, and the first one does
      not end the speech. */
  ghost predicate Collected(batches: seq<Batch>, nvec: nat, right: nat, more: bool) {
    && Sized(batches, nvec, right)
    && (forall k :: 0 <= k < |batches| ==> (batches[k].more <==> k + 1 < |batches| || more))
    && (batches != [] ==> !batches[0].endsSpeech)
  }

  lemma CollectOneMore(batches: seq<Batch>, nvec: nat, right: nat, batch: Batch)
    requires Collected(batches, nvec, right, true)
    requires |batch.rows| == if batches == [] then nvec - right else nvec
    requires batches == [] ==> !batch.endsSpeech
    ensures Collected(batches + [batch], nvec, right, batch.more)
  {
  }

  /** All that the calls so far have made of a stream, row by row. */
  ghost predicate Ledger(c: Chain, stream: seq<real>, passed: seq<VadGates.Emission>, fronts: seq<seq<real>>,
                         history: seq<Row>, batches: seq<Batch>, more: bool, silent: bool)
  {
    && Produced(c, stream, passed, fronts, history, batches, silent)
    && Collected(batches, c.nvec, c.right, more)
    && |history| == |batches| * c.nvec && (silent ==> !more)
  }

  /** One call more. */
  lemma LedgerOneMore(c: Chain, stream: seq<real>, passed: seq<VadGates.Emission>, fronts: seq<seq<real>>,
                      history: seq<Row>, batches: seq<Batch>, k: nat, emitted: bool, event: VadGates.Event,
                      batch: Batch, fronts': seq<seq<real>>, history': seq<Row>)
    requires c.Sound() && Ledger(c, stream, passed, fronts, history, batches, true, false)
    requires fronts' == AddFront(c, stream, fronts, k, emitted)
    requires Adds(c, history, batch, fronts', history', emitted, event)
    requires batches == [] ==> !batch.endsSpeech
    ensures Ledger(c, stream, AddNewest(passed, k, emitted, event), fronts', history', batches + [batch], batch.more,
                   !emitted)
  {
    HistoryIsLong(|history|, |batches|, c.nvec);
    ProducedOneMore(c, stream, passed, fronts, history, batches, k, emitted, event, batch);
    CollectOneMore(batches, c.nvec, c.right, batch);
    OneFactorMore(|batches|, c.nvec);
  }

  /** Before the first call any stream will do. */
  lemma LedgerOpens(c: Chain, stream: seq<real>)
    ensures Ledger(c, stream, [], [], [], [], true, false)
  {
  }

  lemma HistoryIsLong(length: nat, n: nat, nvec: nat)
    requires length == n * nvec && nvec > 0
    ensures length == 0 <==> n == 0
    ensures n > 0 ==> length >= nvec
  {
    if n > 0 {
      MultiplyMonotonic(1, n, nvec);
    }
  }

  lemma FramesFitAnInt(batches: seq<Batch>, nvec: nat, right: nat, shift: nat, samples: nat)
    requires batches != [] && Sized(batches, nvec, right) && right <= nvec && shift > 0
    requires (|batches| - 1) * (nvec * shift) <= samples && samples + nvec * shift < MAX_FRAMES * shift
    ensures StreamLength(batches) < MAX_FRAMES
    ensures NoEmptyBatch(batches) <==> nvec > right
  {
    var n := |batches|;
    SizedOffset(batches, nvec, right, n);
    assert (n * nvec) * shift == (n - 1) * (nvec * shift) + nvec * shift;
    if StreamLength(batches) >= MAX_FRAMES {
      MultiplyMonotonic(MAX_FRAMES, n * nvec, shift);
    }
    if nvec > right {
      forall k | 0 <= k < n
        ensures batches[k].rows != []
      {
        assert |batches[k].rows| > 0;
      }
    } else {
      assert |batches[0].rows| == 0;
    }
  }

  /** When the stream has ended, the detector has been shown the back of every full buffer. */
  lemma AllShown(c: Chain, vad: OnlineVadFeInput, lda: OnlineLdaInput, emitted: bool, event: VadGates.Event)
    requires c.Sound() && Joined(c, vad, lda) && Running(c, vad, false) && vad.LastOutcome(emitted, event)
    ensures PassesThrough(c, vad.source.src, vad.stream) && |vad.stream| >= c.Length()
    ensures vad.PassedSoFar() == PassedOn(c, vad.stream) && EndsSilent(c, vad.stream) == !emitted
  {
    var n, rest := |vad.shown|, |vad.stream| - c.Length();
    QuotientAtLeast(rest, c.Step(), n - 1);
    QuotientAtLeast(rest, c.Step(), n);
    assert vad.shown == BacksOf(c, vad.stream, n);
  }

  lemma AllYielded(c: Chain, stream: seq<real>, fronts: seq<seq<real>>, history: seq<Row>, batches: seq<Batch>,
                   silent: bool)
    requires c.Sound() && |stream| >= c.Length() && silent == EndsSilent(c, stream)
    requires Produced(c, stream, PassedOn(c, stream), fronts, history, batches, silent)
    requires Collected(batches, c.nvec, c.right, false)
    ensures Yields(c, stream, batches)
  {
  }

  /** The stages and what they have made, between two calls. */
  ghost predicate InProgress(c: Chain, vad: OnlineVadFeInput, lda: OnlineLdaInput, fronts: seq<seq<real>>,
                             batches: seq<Batch>, more: bool, emitted: bool, event: VadGates.Event)
    reads vad, vad.source, vad.buffer, lda, lda.featWindow
  {
    && Going(c, vad, lda, batches != [], more)
    && (if batches == [] then fronts == [] && lda.history == [] else vad.LastOutcome(emitted, event))
    && Ledger(c, vad.stream, vad.PassedSoFar(), fronts, lda.history, batches, more, !emitted)
    && (if more then |batches| else |batches| - 1) * c.Step() <= vad.source.pos
  }

  /** One turn of the loop that collects the batches. */
  method Collect(c: Chain, vad: OnlineVadFeInput, lda: OnlineLdaInput, fronts: seq<seq<real>>, batches: seq<Batch>,
                 ghost emitted: bool, ghost event: VadGates.Event)
    returns (batch: Batch, fronts': seq<seq<real>>, ghost emitted': bool, ghost event': VadGates.Event)
    requires c.Sound() && Joined(c, vad, lda) && InProgress(c, vad, lda, fronts, batches, true, emitted, event)
    modifies vad, vad.buffer, vad.source, lda, lda.featWindow
    ensures fresh({vad.buffer} - {old(vad.buffer)}) && fresh({lda.featWindow} - {old(lda.featWindow)})
    ensures InProgress(c, vad, lda, fronts', batches + [batch], batch.more, emitted', event')
    ensures old(vad.source.pos) + (if batch.more then c.Step() else 0) <= vad.source.pos <= |vad.source.src|
  {
    ghost var passed, history := vad.PassedSoFar(), lda.history;
    HistoryIsLong(|lda.history|, |batches|, c.nvec);
    batch, fronts', emitted', event' := NextBatch(c, vad, lda, fronts);
    LedgerOpens(c, vad.stream);
    LedgerOneMore(c, vad.stream, passed, fronts, history, batches, |vad.shown| - 1, emitted', event', batch, fronts',
                  lda.history);
    OneFactorMore(|batches|, c.Step());
  }

  lemma AtStart(c: Chain, vad: OnlineVadFeInput, lda: OnlineLdaInput)
    requires c.Sound() && Joined(c, vad, lda) && c.delay == vad.bufferLength
    requires Untouched(vad) && lda.Valid() && lda.featWindow.Length == 0
    ensures InProgress(c, vad, lda, [], [], true, true, VadGates.NoEvent)
  {
    LedgerOpens(c, vad.stream);
  }

  lemma AtEnd(c: Chain, vad: OnlineVadFeInput, lda: OnlineLdaInput, fronts: seq<seq<real>>, batches: seq<Batch>,
              emitted: bool, event: VadGates.Event)
    requires c.Sound() && Joined(c, vad, lda) && InProgress(c, vad, lda, fronts, batches, false, emitted, event)
    requires |vad.source.src| + c.Step() < MAX_FRAMES * c.shift
    ensures PassesThrough(c, vad.source.src, vad.stream) && |vad.stream| >= c.Length()
    ensures Yields(c, vad.stream, batches)
    ensures WellFormed(batches) && !Strands(batches)
    ensures NoEmptyBatch(batches) <==> c.nvec > c.right
  {
    AllShown(c, vad, lda, emitted, event);
    AllYielded(c, vad.stream, fronts, lda.history, batches, !emitted);
    FramesFitAnInt(batches, c.nvec, c.right, c.shift, |vad.source.src|);
  }

  /** All the batches a gated stream yields.  They meet what the decoder asks for, except that the first one is empty
      when the decoder asks for no more rows than the context takes. */
  method GatedBatches(c: Chain, vad: OnlineVadFeInput, lda: OnlineLdaInput) returns (batches: seq<Batch>)
    requires c.Sound() && Joined(c, vad, lda) && c.delay == vad.bufferLength
    requires Untouched(vad) && lda.Valid() && lda.featWindow.Length == 0
    requires |vad.source.src| + c.Step() < MAX_FRAMES * c.shift
    modifies vad, vad.buffer, vad.source, lda, lda.featWindow
    ensures PassesThrough(c, vad.source.src, vad.stream) && |vad.stream| >= c.Length()
    ensures Yields(c, vad.stream, batches)
    ensures WellFormed(batches) && !Strands(batches)
    ensures NoEmptyBatch(batches) <==> c.nvec > c.right
  {
    batches := [];
    var fronts: seq<seq<real>> := [];
    var more := true;
    ghost var emitted, event := true, VadGates.NoEvent;
    AtStart(c, vad, lda);
    while more
      invariant fresh({vad.buffer} - {old(vad.buffer)}) && fresh({lda.featWindow} - {old(lda.featWindow)})
      invariant InProgress(c, vad, lda, fronts, batches, more, emitted, event)
      decreases more, |vad.source.src| - vad.source.pos
    {
      var batch;
      batch, fronts, emitted, event := Collect(c, vad, lda, fronts, batches, emitted, event);
      batches := batches + [batch];
      more := batch.more;
    }
    AtEnd(c, vad, lda, fronts, batches, emitted, event);
  }
}
