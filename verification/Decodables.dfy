/** The decodable object that pulls feature batches on demand and serves single frames to the search. */
module Decodables {
  import opened Basics

  /** One result of the feature input's `Compute`: the rows, whether more data follow, and whether the
      voice-activity gate fired its end-of-speech event during the call. */
  datatype Batch = Batch(rows: seq<Row>, more: bool, endsSpeech: bool)

  /** A scored frame: its number and the feature row its likelihood was computed from. */
  datatype Scored = Scored(frame: nat, row: Row)

  /** `NotLoaded` is the assertion "Out-of-bounds request", `EndOfFeatures` the runtime error. */
  datatype Response = Likelihood(row: Row) | NotLoaded | EndOfFeatures

  const TWO_32 := 0x1_0000_0000

  /** The frame counter is an int32, so a longer stream would overflow it. */
  const MAX_FRAMES := 0x8000_0000

  /** C++ converts an int32 to uint32 where the two are compared or added. */
  function AsUint32(x: int): (r: int)
    ensures 0 <= r < TWO_32
    ensures 0 <= x < TWO_32 ==> r == x
  {
    x % TWO_32
  }

  /** The number of frames in the first `k` batches. */
  function Offset(batches: seq<Batch>, k: nat): (n: nat)
    requires k <= |batches|
  {
    if k == 0 then 0 else Offset(batches, k - 1) + |batches[k - 1].rows|
  }

  /** The rows of the first `k` batches, unbatched. */
  function StreamTo(batches: seq<Batch>, k: nat): (rows: seq<Row>)
    requires k <= |batches|
    ensures |rows| == Offset(batches, k)
  {
    if k == 0 then [] else StreamTo(batches, k - 1) + batches[k - 1].rows
  }

  /** The whole feature stream. */
  function Stream(batches: seq<Batch>): (rows: seq<Row>) {
    StreamTo(batches, |batches|)
  }

  function StreamLength(batches: seq<Batch>): (n: nat) {
    Offset(batches, |batches|)
  }

  lemma {:induction false} OffsetMonotonic(batches: seq<Batch>, j: nat, k: nat)
    requires j <= k <= |batches|
    ensures Offset(batches, j) <= Offset(batches, k)
    ensures StreamTo(batches, j) <= StreamTo(batches, k)
  {
    if j < k {
      OffsetMonotonic(batches, j, k - 1);
    }
  }

  /** Row `i` of batch `k` is row `i + (rows of the batches before)` of the stream. */
  lemma StreamAt(batches: seq<Batch>, k: nat, i: nat)
    requires k < |batches| && i < |batches[k].rows|
    ensures Offset(batches, k) + i < StreamLength(batches)
    ensures Stream(batches)[Offset(batches, k) + i] == batches[k].rows[i]
  {
    OffsetMonotonic(batches, k + 1, |batches|);
  }

  /** A finite stream: the last batch and no other is flagged as the end. */
  ghost predicate WellFormed(batches: seq<Batch>) {
    && batches != []
    && StreamLength(batches) < MAX_FRAMES
    && forall k :: 0 <= k < |batches| ==> (batches[k].more <==> k + 1 < |batches|)
  }

  ghost predicate NoEmptyBatch(batches: seq<Batch>) {
    forall k :: 0 <= k < |batches| ==> batches[k].rows != []
  }

  class OnlineDecodable {
    /** What the feature input will return, call by call. */
    const batches: seq<Batch>
    ghost var consumed: nat

    var pending: seq<Batch>
    var featMatrix: seq<Row>
    var featOffset: nat
    var finished: bool

    ghost predicate Valid()
      reads this
    {
      && consumed <= |batches|
      && pending == batches[consumed..]
      && (consumed == 0 ==> featMatrix == [] && featOffset == 0 && !finished)
      && (consumed > 0 ==>
            && featMatrix == batches[consumed - 1].rows
            && featOffset == Offset(batches, consumed - 1)
            && (finished <==> consumed == |batches|))
    }

    constructor (batches: seq<Batch>)
      requires batches != []
      ensures Valid() && consumed == 0 && this.batches == batches
    {
      this.batches := batches;
      consumed := 0;
      pending := batches;
      featMatrix, featOffset, finished := [], 0, false;
    }

    /** The number of frames loaded so far. */
    ghost function Loaded(): (n: nat)
      reads this
    {
      featOffset + |featMatrix|
    }

    lemma LoadedIsStreamed()
      requires Valid()
      ensures Loaded() == Offset(batches, consumed) <= StreamLength(batches)
      ensures finished ==> Loaded() == StreamLength(batches)
    {
      OffsetMonotonic(batches, consumed, |batches|);
    }

    /** `forcing` tells whether the end-of-speech event reached the decoder during the call. */
    method LogLikelihood(frame: nat) returns (response: Response, forcing: bool)
      requires Valid() && WellFormed(batches)
      requires featOffset <= frame <= Loaded() && frame < MAX_FRAMES
      modifies this
      ensures response.EndOfFeatures? <==>
                old(consumed) < |batches| && frame == old(Loaded()) && batches[old(consumed)].rows == []
      ensures !response.EndOfFeatures? ==> Valid()
      ensures response.NotLoaded? <==> frame == StreamLength(batches) && old(consumed) == |batches|
      ensures response.Likelihood? ==> frame < StreamLength(batches) && response.row == Stream(batches)[frame]
      ensures response.Likelihood? ==> featOffset <= frame < Loaded()
      ensures response.Likelihood? && frame < old(Loaded()) ==> unchanged(this) && !forcing
      ensures response.Likelihood? && frame == old(Loaded()) ==>
                consumed == old(consumed) + 1 && featOffset == frame && forcing == batches[consumed - 1].endsSpeech
    {
      LoadedIsStreamed();
      forcing := false;
      var featSize := |featMatrix|;
      if frame >= featOffset + featSize {
        if finished {
          return NotLoaded, false;
        }
        var batch := pending[0];
        forcing := batch.endsSpeech;
        featMatrix := batch.rows;
        finished := !batch.more;
        if |featMatrix| == 0 {
          return EndOfFeatures, forcing;
        }
        featOffset := featOffset + featSize;
        pending := pending[1..];
        consumed := consumed + 1;
      }
      var reqFrame := frame - featOffset;
      response := Likelihood(featMatrix[reqFrame]);
      StreamAt(batches, consumed - 1, reqFrame);
    }

    /** The comparison is made on uint32 values, so for frame -1 the answer is yes as soon as the input is
        exhausted. */
    predicate IsLastFrame(frame: int)
      reads this
    {
      finished && AsUint32(frame) >= AsUint32(featOffset + |featMatrix| - 1)
    }

    lemma IsLastFrameMeaning(frame: int)
      requires Valid() && WellFormed(batches) && StreamLength(batches) > 0 && -1 <= frame < MAX_FRAMES
      ensures IsLastFrame(frame) <==> finished && (frame == -1 || frame >= StreamLength(batches) - 1)
    {
      LoadedIsStreamed();
    }
  }

  // ----- The order in which frames are scored -----

  /** The frames from `first` up to, not including, `end`. */
  function Consecutive(batches: seq<Batch>, first: nat, end: nat): (frames: seq<Scored>)
    requires first <= end <= StreamLength(batches)
    ensures |frames| == end - first
  {
    seq(end - first, i requires 0 <= i < end - first => Scored(first + i, Stream(batches)[first + i]))
  }

  lemma ConsecutiveOneMore(batches: seq<Batch>, first: nat, end: nat)
    requires first <= end < StreamLength(batches)
    ensures Consecutive(batches, first, end + 1) ==
            Consecutive(batches, first, end) + [Scored(end, Stream(batches)[end])]
  {
  }

  function Number(offset: nat, rows: seq<Row>): (frames: seq<Scored>)
    ensures |frames| == |rows|
  {
    seq(|rows|, i requires 0 <= i < |rows| => Scored(offset + i, rows[i]))
  }

  /** The first frame of a batch that ended the speech, which is scored once more. */
  function Again(batch: Batch, frames: seq<Scored>): (again: seq<Scored>) {
    if batch.endsSpeech && frames != [] then [frames[0]] else []
  }

  /** The order the first `k` batches should be scored in: every frame once, in order, except that the first
      frame of a batch that ended the speech is scored a second time, as the first frame of the next
      utterance. */
  function ScoringOrderTo(batches: seq<Batch>, k: nat): (frames: seq<Scored>)
    requires k <= |batches|
  {
    if k == 0 then []
    else
      var frames := Number(Offset(batches, k - 1), batches[k - 1].rows);
      ScoringOrderTo(batches, k - 1) + (Again(batches[k - 1], frames) + frames)
  }

  function ScoringOrder(batches: seq<Batch>): (frames: seq<Scored>) {
    ScoringOrderTo(batches, |batches|)
  }

  /** From `consumed0` batches loaded and `frame0` next, `scored` brings the decoder to `consumed` and `frame`:
      the frames in between, in order.  `forced` tells that a batch that ended the speech was loaded last; its
      first frame has been scored but the frame counter has been left on it. */
  ghost predicate Advance(batches: seq<Batch>, consumed0: nat, frame0: nat, consumed: nat, frame: nat, forced: bool,
                          scored: seq<Scored>) {
    && consumed0 <= consumed <= |batches|
    && frame0 <= frame <= StreamLength(batches)
    && (forced ==>
          && consumed0 < consumed && frame < StreamLength(batches)
          && frame == Offset(batches, consumed - 1) && batches[consumed - 1].endsSpeech)
    && scored == Consecutive(batches, frame0, if forced then frame + 1 else frame)
    && forall k :: consumed0 <= k < (if forced then consumed - 1 else consumed) ==> !batches[k].endsSpeech
  }

  /** One more frame, with the batch it was loaded from if it had to be loaded. */
  lemma AdvanceOneFrame(batches: seq<Batch>, consumed0: nat, frame0: nat, consumed: nat, frame: nat,
                        scored: seq<Scored>, consumed': nat, forced: bool)
    requires Advance(batches, consumed0, frame0, consumed, frame, false, scored) && frame < StreamLength(batches)
    requires consumed' == consumed || (consumed' == consumed + 1 <= |batches| && frame == Offset(batches, consumed))
    requires forced <==> consumed' == consumed + 1 && batches[consumed].endsSpeech
    ensures Advance(batches, consumed0, frame0, consumed', if forced then frame else frame + 1, forced,
                    scored + [Scored(frame, Stream(batches)[frame])])
  {
    ConsecutiveOneMore(batches, frame0, frame);
  }

  /** What has been scored when the last of `consumed` batches is about to be scored for good. */
  ghost function ScoredBefore(batches: seq<Batch>, consumed: nat): (frames: seq<Scored>)
    requires 0 < consumed <= |batches|
  {
    var frames := Number(Offset(batches, consumed - 1), batches[consumed - 1].rows);
    ScoringOrderTo(batches, consumed - 1) + Again(batches[consumed - 1], frames)
  }

  /** What has been scored when `frame` is next and `consumed` batches are loaded. */
  ghost function ScoredAt(batches: seq<Batch>, consumed: nat, frame: nat): (frames: seq<Scored>)
    requires consumed <= |batches| && frame <= StreamLength(batches)
    requires consumed > 0 ==> Offset(batches, consumed - 1) <= frame
  {
    if consumed == 0 then []
    else ScoredBefore(batches, consumed) + Consecutive(batches, Offset(batches, consumed - 1), frame)
  }

  lemma ConsecutiveJoins(batches: seq<Batch>, before: seq<Scored>, first: nat, mid: nat, end: nat)
    requires first <= mid <= end <= StreamLength(batches)
    ensures before + Consecutive(batches, first, mid) + Consecutive(batches, mid, end)
            == before + Consecutive(batches, first, end)
    ensures before + (Consecutive(batches, first, mid) + Consecutive(batches, mid, end))
            == before + Consecutive(batches, first, end)
  {
    assert Consecutive(batches, first, mid) + Consecutive(batches, mid, end) == Consecutive(batches, first, end);
  }

  /** The frames of one batch are consecutive frames of the stream. */
  lemma BatchIsConsecutive(batches: seq<Batch>, k: nat)
    requires k < |batches|
    ensures Offset(batches, k + 1) <= StreamLength(batches)
    ensures Number(Offset(batches, k), batches[k].rows)
              == Consecutive(batches, Offset(batches, k), Offset(batches, k + 1))
  {
    OffsetMonotonic(batches, k + 1, |batches|);
    forall i | 0 <= i < |batches[k].rows|
      ensures Stream(batches)[Offset(batches, k) + i] == batches[k].rows[i]
    {
      StreamAt(batches, k, i);
    }
  }

  lemma ScoredAtEndOfBatch(batches: seq<Batch>, consumed: nat)
    requires consumed <= |batches|
    ensures Offset(batches, consumed) <= StreamLength(batches)
    ensures ScoredAt(batches, consumed, Offset(batches, consumed)) == ScoringOrderTo(batches, consumed)
  {
    OffsetMonotonic(batches, consumed, |batches|);
    if consumed > 0 {
      BatchIsConsecutive(batches, consumed - 1);
    }
  }

  /** Going on within the loaded batch. */
  lemma ScoredWithinBatch(batches: seq<Batch>, consumed: nat, frame: nat, frame': nat)
    requires 0 < consumed <= |batches|
    requires Offset(batches, consumed - 1) <= frame <= frame' <= StreamLength(batches)
    ensures ScoredAt(batches, consumed, frame) + Consecutive(batches, frame, frame')
              == ScoredAt(batches, consumed, frame')
  {
    ConsecutiveJoins(batches, ScoredBefore(batches, consumed), Offset(batches, consumed - 1), frame, frame');
  }

  /** Loading a batch that does not end the speech, and scoring it up to `frame`. */
  lemma ScoredIntoNextBatch(batches: seq<Batch>, k: nat, frame: nat)
    requires k < |batches| && !batches[k].endsSpeech
    requires Offset(batches, k) <= frame <= StreamLength(batches)
    ensures ScoredAt(batches, k, Offset(batches, k)) + Consecutive(batches, Offset(batches, k), frame)
            == ScoredAt(batches, k + 1, frame)
  {
    ScoredAtEndOfBatch(batches, k);
  }

  /** Loading a batch that ends the speech, and scoring its first frame. */
  lemma ScoredFirstOfEndingBatch(batches: seq<Batch>, k: nat, frame: nat)
    requires k < |batches| && batches[k].endsSpeech && batches[k].rows != []
    requires frame == Offset(batches, k) < StreamLength(batches)
    ensures ScoredAt(batches, k, frame) + Consecutive(batches, frame, frame + 1) == ScoredAt(batches, k + 1, frame)
  {
    ScoredAtEndOfBatch(batches, k);
    StreamAt(batches, k, 0);
  }

  lemma {:induction false} ScoredAcrossBatches(batches: seq<Batch>, consumed0: nat, frame0: nat, consumed: nat,
                                               frame: nat)
    requires consumed0 <= consumed <= |batches| && frame0 <= frame <= StreamLength(batches)
    requires if consumed0 == 0 then frame0 == 0
             else Offset(batches, consumed0 - 1) <= frame0 <= Offset(batches, consumed0)
    requires if consumed == 0 then frame == 0 else Offset(batches, consumed - 1) <= frame
    requires forall k :: consumed0 <= k < consumed ==> !batches[k].endsSpeech
    ensures ScoredAt(batches, consumed0, frame0) + Consecutive(batches, frame0, frame)
              == ScoredAt(batches, consumed, frame)
    decreases consumed
  {
    if consumed > consumed0 {
      var offset := Offset(batches, consumed - 1);
      OffsetMonotonic(batches, consumed0, consumed - 1);
      ScoredAcrossBatches(batches, consumed0, frame0, consumed - 1, offset);
      ConsecutiveJoins(batches, ScoredAt(batches, consumed0, frame0), frame0, offset, frame);
      ScoredIntoNextBatch(batches, consumed - 1, frame);
    } else if consumed > 0 {
      ScoredWithinBatch(batches, consumed, frame0, frame);
    }
  }

  lemma ForcedFollowsTheOrder(batches: seq<Batch>, consumed0: nat, frame0: nat, k: nat, frame: nat)
    requires NoEmptyBatch(batches) && frame0 <= frame < StreamLength(batches)
    requires Advance(batches, consumed0, frame0, k + 1, frame, true, Consecutive(batches, frame0, frame + 1))
    requires if consumed0 == 0 then frame0 == 0
             else Offset(batches, consumed0 - 1) <= frame0 <= Offset(batches, consumed0)
    requires Offset(batches, k) <= frame
    ensures ScoredAt(batches, consumed0, frame0) + Consecutive(batches, frame0, frame + 1)
            == ScoredAt(batches, k + 1, frame)
  {
    OffsetMonotonic(batches, consumed0, k);
    ScoredAcrossBatches(batches, consumed0, frame0, k, frame);
    ScoredFirstOfEndingBatch(batches, k, frame);
    ConsecutiveJoins(batches, ScoredAt(batches, consumed0, frame0), frame0, frame, frame + 1);
  }

  /** Advancing follows the scoring order. */
  lemma AdvanceFollowsTheOrder(batches: seq<Batch>, consumed0: nat, frame0: nat, consumed: nat, frame: nat,
                               forced: bool, scored: seq<Scored>)
    requires NoEmptyBatch(batches)
    requires Advance(batches, consumed0, frame0, consumed, frame, forced, scored)
    requires if consumed0 == 0 then frame0 == 0
             else Offset(batches, consumed0 - 1) <= frame0 <= Offset(batches, consumed0)
    requires if consumed == 0 then frame == 0 else Offset(batches, consumed - 1) <= frame
    ensures ScoredAt(batches, consumed0, frame0) + scored == ScoredAt(batches, consumed, frame)
  {
    if forced {
      ForcedFollowsTheOrder(batches, consumed0, frame0, consumed - 1, frame);
    } else {
      ScoredAcrossBatches(batches, consumed0, frame0, consumed, frame);
    }
  }

  /** The numbers of the frames scored. */
  function FrameNumbers(frames: seq<Scored>): (numbers: seq<nat>) {
    seq(|frames|, i requires 0 <= i < |frames| => frames[i].frame)
  }

  /** How often a frame is scored. */
  function TimesScored(frames: seq<Scored>, frame: nat): (n: nat) {
    multiset(FrameNumbers(frames))[frame]
  }

  lemma TimesOfConcatenation(a: seq<Scored>, b: seq<Scored>, frame: nat)
    ensures TimesScored(a + b, frame) == TimesScored(a, frame) + TimesScored(b, frame)
  {
    assert FrameNumbers(a + b) == FrameNumbers(a) + FrameNumbers(b);
  }

  lemma {:induction false} TimesOfNumbered(offset: nat, rows: seq<Row>, frame: nat)
    ensures TimesScored(Number(offset, rows), frame) == if offset <= frame < offset + |rows| then 1 else 0
  {
    if rows != [] {
      var n := |rows| - 1;
      TimesOfNumbered(offset, rows[..n], frame);
      assert FrameNumbers(Number(offset, rows)) == FrameNumbers(Number(offset, rows[..n])) + [offset + n];
    }
  }

  /** A forced end falls on the first frame of the batch whose loading raised it. */
  ghost predicate ForcedEndOn(batches: seq<Batch>, upTo: nat, frame: nat)
    requires upTo <= |batches|
  {
    exists k :: 0 <= k < upTo && ForcesAt(batches, k, frame)
  }

  ghost predicate ForcesAt(batches: seq<Batch>, k: nat, frame: nat)
    requires k < |batches|
  {
    batches[k].endsSpeech && batches[k].rows != [] && frame == Offset(batches, k)
  }

  /** How often one batch has a frame scored. */
  lemma TimesInBatch(offset: nat, batch: Batch, frame: nat)
    ensures var frames := Number(offset, batch.rows);
            TimesScored(Again(batch, frames) + frames, frame)
            == (if offset <= frame < offset + |batch.rows| then 1 else 0) +
               (if batch.endsSpeech && batch.rows != [] && frame == offset then 1 else 0)
  {
    var frames := Number(offset, batch.rows);
    var again := Again(batch, frames);
    TimesOfNumbered(offset, batch.rows, frame);
    TimesOfConcatenation(again, frames, frame);
    if again != [] {
      assert FrameNumbers(again) == [offset];
    }
  }

  /** No forced end falls beyond the batches. */
  lemma ForcedEndInside(batches: seq<Batch>, upTo: nat, frame: nat)
    requires upTo <= |batches| && ForcedEndOn(batches, upTo, frame)
    ensures frame < Offset(batches, upTo)
  {
    var k :| 0 <= k < upTo && ForcesAt(batches, k, frame);
    OffsetMonotonic(batches, k + 1, upTo);
  }

  lemma ForcedEndInOneMore(batches: seq<Batch>, k: nat, frame: nat)
    requires 0 < k <= |batches|
    ensures ForcedEndOn(batches, k, frame) <==> ForcedEndOn(batches, k - 1, frame) || ForcesAt(batches, k - 1, frame)
    ensures ForcedEndOn(batches, k - 1, frame) ==> frame < Offset(batches, k - 1)
  {
    if ForcedEndOn(batches, k - 1, frame) {
      ForcedEndInside(batches, k - 1, frame);
    }
  }

  /** What batch `k` adds to the times a frame is scored. */
  ghost function TimesIn(batches: seq<Batch>, k: nat, frame: nat): (n: nat)
    requires k < |batches|
  {
    (if Offset(batches, k) <= frame < Offset(batches, k + 1) then 1 else 0) +
    (if ForcesAt(batches, k, frame) then 1 else 0)
  }

  ghost function TimesInFirst(batches: seq<Batch>, k: nat, frame: nat): (n: nat)
    requires k <= |batches|
  {
    if k == 0 then 0 else TimesInFirst(batches, k - 1, frame) + TimesIn(batches, k - 1, frame)
  }

  lemma TimesInOneMore(batches: seq<Batch>, k: nat, frame: nat)
    requires 0 < k <= |batches|
    ensures TimesScored(ScoringOrderTo(batches, k), frame)
            == TimesScored(ScoringOrderTo(batches, k - 1), frame) + TimesIn(batches, k - 1, frame)
  {
    var batch, offset := batches[k - 1], Offset(batches, k - 1);
    var frames := Number(offset, batch.rows);
    TimesInBatch(offset, batch, frame);
    TimesOfConcatenation(ScoringOrderTo(batches, k - 1), Again(batch, frames) + frames, frame);
  }

  lemma {:induction false} TimesAddUp(batches: seq<Batch>, k: nat, frame: nat)
    requires k <= |batches|
    ensures TimesScored(ScoringOrderTo(batches, k), frame) == TimesInFirst(batches, k, frame)
  {
    if k > 0 {
      TimesAddUp(batches, k - 1, frame);
      TimesInOneMore(batches, k, frame);
    }
  }

  lemma {:induction false} OnceOrTwice(batches: seq<Batch>, k: nat, frame: nat)
    requires k <= |batches|
    ensures TimesInFirst(batches, k, frame)
            == if frame >= Offset(batches, k) then 0 else if ForcedEndOn(batches, k, frame) then 2 else 1
  {
    if k > 0 {
      OnceOrTwice(batches, k - 1, frame);
      ForcedEndInOneMore(batches, k, frame);
      if frame < Offset(batches, k - 1) {
        assert TimesIn(batches, k - 1, frame) == 0;
      } else {
        assert !ForcedEndOn(batches, k - 1, frame);
      }
    }
  }

  /** No frame is skipped; a frame is scored twice exactly when a forced end fell on it, and once otherwise. */
  lemma FramesScored(batches: seq<Batch>, frame: nat)
    ensures TimesScored(ScoringOrder(batches), frame) ==
            if frame >= StreamLength(batches) then 0 else if ForcedEndOn(batches, |batches|, frame) then 2 else 1
  {
    TimesAddUp(batches, |batches|, frame);
    OnceOrTwice(batches, |batches|, frame);
  }

  /** Every frame is scored on its own row of the stream. */
  lemma {:induction false} ScoredRowsAreTheStream(batches: seq<Batch>, k: nat, i: nat)
    requires k <= |batches| && i < |ScoringOrderTo(batches, k)|
    ensures var scored := ScoringOrderTo(batches, k)[i];
            scored.frame < Offset(batches, k) && scored.row == StreamTo(batches, k)[scored.frame]
  {
    var before := ScoringOrderTo(batches, k - 1);
    if i < |before| {
      assert ScoringOrderTo(batches, k)[i] == before[i];
      ScoredRowsAreTheStream(batches, k - 1, i);
    } else {
      var frames := Number(Offset(batches, k - 1), batches[k - 1].rows);
      assert ScoringOrderTo(batches, k)[i] == (Again(batches[k - 1], frames) + frames)[i - |before|];
    }
  }
}
