/** Audio held in memory, and feature frames extracted from it batch by batch. */
module AudioSources {
  import opened Basics

  class OnlineVectorSource<T> {
    const src: seq<T>
    var pos: nat

    constructor (src: seq<T>)
      ensures this.src == src && pos == 0
    {
      this.src, pos := src, 0;
    }

    ghost predicate Valid()
      reads this
    {
      pos <= |src|
    }

    /** Copies the next samples to `data[from..from + n]`, as many as there are. */
    method Read(data: array<T>, from: nat, n: nat) returns (nElem: nat)
      requires Valid() && from + n <= data.Length
      modifies this, data
      ensures Valid() && nElem == Next(|src|, old(pos), n) && pos == old(pos) + nElem
      ensures data[..] == old(data[..from]) + src[old(pos)..pos] + old(data[from + nElem..])
    {
      nElem := if |src| - pos < n then |src| - pos else n;
      ghost var before := data[..];
      if nElem > 0 {
        for i := 0 to nElem
          invariant pos == old(pos)
          invariant forall j :: 0 <= j < data.Length ==>
                      data[j] == if from <= j < from + i then src[pos + (j - from)] else before[j]
        {
          data[from + i] := src[pos + i];
        }
        pos := pos + nElem;
      }
      Overwritten(before, data[..], src[old(pos)..pos], from);
    }
  }

  lemma Overwritten<T>(before: seq<T>, after: seq<T>, part: seq<T>, from: nat)
    requires |after| == |before| && from + |part| <= |before|
    requires forall j :: 0 <= j < |before| ==>
               after[j] == if from <= j < from + |part| then part[j - from] else before[j]
    ensures after == before[..from] + part + before[from + |part|..]
  {
  }

  /** How many samples a read of `n` yields. */
  function Next(length: nat, pos: nat, n: nat): (k: nat)
    requires pos <= length
    ensures k <= n && pos + k <= length
    ensures k < n ==> pos + k == length
  {
    if length - pos < n then length - pos else n
  }

  // ----- Frames -----

  /** The number of whole frames of `size` samples, `shift` apart, in `n` samples. */
  function NumFrames(n: nat, size: nat, shift: nat): (k: nat)
    requires 0 < shift <= size
  {
    if n < size then 0 else (n - size) / shift + 1
  }

  lemma NumFramesMeaning(n: nat, size: nat, shift: nat, k: nat)
    requires 0 < shift <= size
    ensures k < NumFrames(n, size, shift) <==> k * shift + size <= n
  {
    if n >= size {
      var q, r := (n - size) / shift, (n - size) % shift;
      assert n - size == q * shift + r;
      if k <= q {
        MultiplyMonotonic(k, q, shift);
      } else {
        MultiplyMonotonic(q + 1, k, shift);
        assert (q + 1) * shift == q * shift + shift;
      }
    } else {
      assert k * shift >= 0;
    }
  }

  /** The frames of a stretch of samples: frame `i` starts at sample `i * shift`. */
  function Frames<T>(x: seq<T>, size: nat, shift: nat): (frames: seq<seq<T>>)
    requires 0 < shift <= size
    ensures |frames| == NumFrames(|x|, size, shift)
  {
    seq(NumFrames(|x|, size, shift), i requires 0 <= i < NumFrames(|x|, size, shift) => FrameAt(x, size, shift, i))
  }

  function FrameAt<T>(x: seq<T>, size: nat, shift: nat, i: nat): (frame: seq<T>)
    requires 0 < shift <= size && i < NumFrames(|x|, size, shift)
    ensures |frame| == size
  {
    NumFramesMeaning(|x|, size, shift, i);
    x[i * shift..i * shift + size]
  }

  /** The samples that no frame starting later can do without: what extraction leaves over. */
  function Remainder<T>(x: seq<T>, size: nat, shift: nat): (rest: seq<T>)
    requires 0 < shift <= size
  {
    FramesFit(|x|, size, shift);
    x[NumFrames(|x|, size, shift) * shift..]
  }

  lemma FramesFit(n: nat, size: nat, shift: nat)
    requires 0 < shift <= size
    ensures NumFrames(n, size, shift) * shift <= n
    ensures n - NumFrames(n, size, shift) * shift < size
  {
    var k := NumFrames(n, size, shift);
    NumFramesMeaning(n, size, shift, k);
    if k > 0 {
      NumFramesMeaning(n, size, shift, k - 1);
      assert k * shift == (k - 1) * shift + shift;
    }
  }

  /** Dropping the samples of `k` frames' starts drops `k` frames. */
  lemma NumFramesDrop(n: nat, size: nat, shift: nat, k: nat)
    requires 0 < shift <= size && k * shift <= n && k <= NumFrames(n, size, shift)
    ensures NumFrames(n - k * shift, size, shift) == NumFrames(n, size, shift) - k
  {
    var a, b := NumFrames(n - k * shift, size, shift), NumFrames(n, size, shift) - k;
    NumFramesMeaning(n - k * shift, size, shift, b);
    NumFramesMeaning(n, size, shift, b + k);
    assert (b + k) * shift == b * shift + k * shift;
    if b > 0 {
      NumFramesMeaning(n - k * shift, size, shift, b - 1);
      NumFramesMeaning(n, size, shift, b - 1 + k);
      assert (b - 1 + k) * shift == (b - 1) * shift + k * shift;
    }
  }

  lemma NumFramesMonotonic(m: nat, n: nat, size: nat, shift: nat)
    requires 0 < shift <= size && m <= n
    ensures NumFrames(m, size, shift) <= NumFrames(n, size, shift)
  {
    var k := NumFrames(n, size, shift);
    NumFramesMeaning(n, size, shift, k);
    NumFramesMeaning(m, size, shift, k);
  }

  lemma FrameOfDropped<T>(z: seq<T>, size: nat, shift: nat, k: nat, i: nat)
    requires 0 < shift <= size && k * shift <= |z| && i < NumFrames(|z| - k * shift, size, shift)
    ensures k + i < NumFrames(|z|, size, shift)
    ensures FrameAt(z[k * shift..], size, shift, i) == FrameAt(z, size, shift, k + i)
  {
    NumFramesMeaning(|z| - k * shift, size, shift, i);
    assert (k + i) * shift == k * shift + i * shift;
    NumFramesMeaning(|z|, size, shift, k + i);
    SliceOfDrop(z, k * shift, i * shift, size);
  }

  /** Dropping the samples of `k` frames' starts drops `k` frames, and leaves the same remainder. */
  lemma FramesOfDropped<T>(z: seq<T>, size: nat, shift: nat, k: nat)
    requires 0 < shift <= size && k * shift <= |z| && k <= NumFrames(|z|, size, shift)
    ensures Frames(z[k * shift..], size, shift) == Frames(z, size, shift)[k..]
  {
    NumFramesDrop(|z|, size, shift, k);
    forall i | 0 <= i < NumFrames(|z|, size, shift) - k
      ensures Frames(z[k * shift..], size, shift)[i] == Frames(z, size, shift)[k + i]
    {
      FrameOfDropped(z, size, shift, k, i);
    }
  }

  lemma RemainderOfDropped<T>(z: seq<T>, size: nat, shift: nat, k: nat)
    requires 0 < shift <= size && k * shift <= |z| && k <= NumFrames(|z|, size, shift)
    ensures Remainder(z[k * shift..], size, shift) == Remainder(z, size, shift)
  {
    var m := NumFrames(|z| - k * shift, size, shift);
    NumFramesDrop(|z|, size, shift, k);
    FramesFit(|z| - k * shift, size, shift);
    assert (k + m) * shift == k * shift + m * shift;
    SliceOfDrop(z, k * shift, m * shift, 0);
  }

  /** Samples that come later do not change a frame. */
  lemma FrameOfPrefix<T>(x: seq<T>, y: seq<T>, size: nat, shift: nat, i: nat)
    requires 0 < shift <= size && i < NumFrames(|x|, size, shift)
    ensures i < NumFrames(|x + y|, size, shift)
    ensures FrameAt(x + y, size, shift, i) == FrameAt(x, size, shift, i)
  {
    NumFramesMeaning(|x|, size, shift, i);
    NumFramesMeaning(|x + y|, size, shift, i);
    var offset := i * shift;
    assert (x + y)[offset..offset + size] == x[offset..offset + size];
  }

  lemma FramesOfPrefix<T>(x: seq<T>, y: seq<T>, size: nat, shift: nat)
    requires 0 < shift <= size
    ensures NumFrames(|x|, size, shift) <= NumFrames(|x + y|, size, shift)
    ensures Frames(x + y, size, shift)[..NumFrames(|x|, size, shift)] == Frames(x, size, shift)
  {
    var k := NumFrames(|x|, size, shift);
    NumFramesMonotonic(|x|, |x + y|, size, shift);
    forall i | 0 <= i < k
      ensures Frames(x + y, size, shift)[i] == Frames(x, size, shift)[i]
    {
      FrameOfPrefix(x, y, size, shift, i);
    }
  }

  lemma RemainderStays<T>(x: seq<T>, y: seq<T>, size: nat, shift: nat)
    requires 0 < shift <= size
    ensures NumFrames(|x|, size, shift) * shift <= |x|
    ensures Remainder(x, size, shift) + y == (x + y)[NumFrames(|x|, size, shift) * shift..]
  {
    FramesFit(|x|, size, shift);
  }

  /** Going on from the remainder: the frames of what was left over and what comes next follow the frames
      extracted before, without a gap and without a repetition. */
  lemma FramesContinue<T>(x: seq<T>, y: seq<T>, size: nat, shift: nat)
    requires 0 < shift <= size
    ensures Frames(x, size, shift) + Frames(Remainder(x, size, shift) + y, size, shift) == Frames(x + y, size, shift)
    ensures Remainder(Remainder(x, size, shift) + y, size, shift) == Remainder(x + y, size, shift)
  {
    var k := NumFrames(|x|, size, shift);
    RemainderStays(x, y, size, shift);
    FramesOfPrefix(x, y, size, shift);
    FramesOfDropped(x + y, size, shift, k);
    RemainderOfDropped(x + y, size, shift, k);
    TakeAndDrop(Frames(x + y, size, shift), k);
  }

  // ----- Extraction that carries the remainder -----

  /** Fills the rest of a vector from the source and puts what was left over before in front. */
  method ReadBehind<T>(source: OnlineVectorSource<T>, wave: array<T>, remainder: seq<T>) returns (nElem: nat)
    requires source.Valid() && |remainder| <= wave.Length
    modifies source, wave
    ensures source.Valid() && nElem == Next(|source.src|, old(source.pos), wave.Length - |remainder|)
    ensures source.pos == old(source.pos) + nElem
    ensures wave[..|remainder| + nElem] == remainder + source.src[old(source.pos)..source.pos]
  {
    nElem := source.Read(wave, |remainder|, wave.Length - |remainder|);
    forall i | 0 <= i < |remainder| {
      wave[i] := remainder[i];
    }
  }

  class OnlineFeInput<T(0)> {
    const frameSize: nat
    const frameShift: nat
    const source: OnlineVectorSource<T>

    var waveRemainder: seq<T>

    constructor (source: OnlineVectorSource<T>, frameSize: nat, frameShift: nat)
      requires 0 < frameShift <= frameSize && source.Valid() && source.pos == 0
      ensures Valid() && this.source == source && this.frameSize == frameSize && this.frameShift == frameShift
    {
      this.source, this.frameSize, this.frameShift := source, frameSize, frameShift;
      waveRemainder := [];
    }

    /** The remainder is what extraction leaves of all samples read. */
    ghost predicate Valid()
      reads this, source
    {
      && 0 < frameShift <= frameSize && source.Valid()
      && waveRemainder == Remainder(source.src[..source.pos], frameSize, frameShift)
    }

    /** Produces the next frames, `nvec` if the source has the samples; the answer tells whether it had. */
    method Compute(nvec: nat) returns (frames: seq<seq<T>>, more: bool)
      requires Valid()
      modifies this, source
      ensures Valid() && old(source.pos) <= source.pos
      ensures Frames(old(source.src[..source.pos]), frameSize, frameShift) + frames
              == Frames(source.src[..source.pos], frameSize, frameShift)
      ensures more && nvec > 0 ==> |frames| == nvec
      ensures !more ==> source.pos == |source.src|
    {
      if nvec == 0 {
        return [], true;
      }
      var samplesReq := frameSize + (nvec - 1) * frameShift;
      var wave := new T[samplesReq];
      var remDim := |waveRemainder|;
      ghost var before := source.src[..source.pos];
      FramesFit(|before|, frameSize, frameShift);
      NumFramesMeaning(samplesReq, frameSize, frameShift, nvec - 1);
      NumFramesMeaning(samplesReq, frameSize, frameShift, nvec);
      assert nvec * frameShift == (nvec - 1) * frameShift + frameShift;
      samplesReq := samplesReq - remDim;
      var samplesRcv := ReadBehind(source, wave, waveRemainder);
      var samples := wave[..remDim + samplesRcv];
      ghost var new' := source.src[|before|..source.pos];
      assert before + new' == source.src[..source.pos];
      FramesContinue(before, new', frameSize, frameShift);
      frames := Frames(samples, frameSize, frameShift);
      FramesFit(|samples|, frameSize, frameShift);
      waveRemainder := samples[NumFrames(|samples|, frameSize, frameShift) * frameShift..];
      more := samplesRcv == samplesReq;
    }
  }
}
