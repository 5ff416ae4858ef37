/** The voice-activity gate: from speech decisions on batches to speech events and emitted batches. */
module VadGates {
  import opened Basics

  /** The gate's state; `hangoverCount` counts samples of non-speech batches since the speech started. */
  datatype Gate = Gate(batchVad: bool, hangoverCount: nat)

  datatype Event = NoEvent | SpeechStart | SpeechEnd

  datatype Outcome = Outcome(gate: Gate, event: Event, emitted: bool)

  /** What one batch with decision `speech` does to the gate; `step` is the number of samples in a batch,
      `length` the length of the delay buffer.  There is one listener. */
  function Step(g: Gate, speech: bool, step: nat, length: nat): (o: Outcome) {
    if speech == g.batchVad then Outcome(g, NoEvent, g.batchVad)
    else if speech then Outcome(Gate(true, 0), SpeechStart, true)
    else
      var count := g.hangoverCount + step;
      if count > length then Outcome(Gate(false, count), SpeechEnd, true)
      else Outcome(Gate(true, count), NoEvent, true)
  }

  const INIT := Gate(false, 0)

  /** The gate after a run of decisions. */
  function After(decisions: seq<bool>, step: nat, length: nat): (g: Gate) {
    if decisions == [] then INIT
    else
      var n := |decisions| - 1;
      Step(After(decisions[..n], step, length), decisions[n], step, length).gate
  }

  /** What happens at the `k`-th batch. */
  function At(decisions: seq<bool>, k: nat, step: nat, length: nat): (o: Outcome)
    requires k < |decisions|
  {
    Step(After(decisions[..k], step, length), decisions[k], step, length)
  }

  function Count(decisions: seq<bool>, event: Event, step: nat, length: nat): (n: nat) {
    if decisions == [] then 0
    else
      var n := |decisions| - 1;
      Count(decisions[..n], event, step, length) + if At(decisions, n, step, length).event == event then 1 else 0
  }

  /** Starts and ends alternate: at any time there is one start more than there are ends, while the gate is open,
      or equally many. */
  lemma {:induction false} StartsAndEndsAlternate(decisions: seq<bool>, step: nat, length: nat)
    ensures Count(decisions, SpeechStart, step, length) ==
            Count(decisions, SpeechEnd, step, length) + if After(decisions, step, length).batchVad then 1 else 0
  {
    if decisions != [] {
      var n := |decisions| - 1;
      StartsAndEndsAlternate(decisions[..n], step, length);
    }
  }

  /** A batch that is passed on, and what its listener is told. */
  datatype Emission = Emission(at: nat, event: Event)

  /** The batches passed on, in order. */
  function Passed(decisions: seq<bool>, step: nat, length: nat): (passed: seq<Emission>) {
    if decisions == [] then []
    else
      var n := |decisions| - 1;
      var o := At(decisions, n, step, length);
      Passed(decisions[..n], step, length) + if o.emitted then [Emission(n, o.event)] else []
  }

  /** Batch `e.at` is emitted, with that event. */
  ghost predicate Emitted(decisions: seq<bool>, e: Emission, step: nat, length: nat) {
    && e.at < |decisions|
    && At(decisions, e.at, step, length).emitted
    && At(decisions, e.at, step, length).event == e.event
  }

  /** Exactly the batches that are emitted are passed on, each once and in order. */
  lemma {:induction false} PassedMeaning(decisions: seq<bool>, step: nat, length: nat, e: Emission)
    ensures e in Passed(decisions, step, length) <==> Emitted(decisions, e, step, length)
  {
    if decisions != [] {
      var n := |decisions| - 1;
      PassedMeaning(decisions[..n], step, length, e);
      if e.at < n {
        assert decisions[..n][..e.at] == decisions[..e.at];
      }
    }
  }

  lemma {:induction false} PassedInOrder(decisions: seq<bool>, step: nat, length: nat, i: nat, j: nat)
    requires i < j < |Passed(decisions, step, length)|
    ensures Passed(decisions, step, length)[i].at < Passed(decisions, step, length)[j].at
  {
    var n := |decisions| - 1;
    var before := Passed(decisions[..n], step, length);
    assert before <= Passed(decisions, step, length);
    if j < |before| {
      PassedInOrder(decisions[..n], step, length, i, j);
    } else {
      assert before[i] in before;
      PassedMeaning(decisions[..n], step, length, before[i]);
    }
  }

  lemma OneDecisionMore(decisions: seq<bool>, decision: bool, step: nat, length: nat)
    ensures var n := |decisions|;
            var o := Step(After(decisions, step, length), decision, step, length);
            && At(decisions + [decision], n, step, length) == o
            && After(decisions + [decision], step, length) == o.gate
            && Passed(decisions + [decision], step, length)
               == Passed(decisions, step, length) + if o.emitted then [Emission(n, o.event)] else []
  {
    assert (decisions + [decision])[..|decisions|] == decisions;
  }

  /** Without speech nothing is passed on. */
  lemma {:induction false} SilenceIsNotPassed(decisions: seq<bool>, step: nat, length: nat)
    requires forall k :: 0 <= k < |decisions| ==> !decisions[k]
    ensures Passed(decisions, step, length) == [] && After(decisions, step, length) == INIT
    ensures forall k :: 0 <= k < |decisions| ==> !At(decisions, k, step, length).emitted
  {
    if decisions != [] {
      var n := |decisions| - 1;
      SilenceIsNotPassed(decisions[..n], step, length);
      forall k | 0 <= k < n
        ensures !At(decisions, k, step, length).emitted
      {
        assert decisions[..n][..k] == decisions[..k];
        assert !At(decisions[..n], k, step, length).emitted;
      }
    }
  }

  /** The non-speech batches since the last start -- not the consecutive ones. */
  function NonSpeechSinceStart(decisions: seq<bool>, step: nat, length: nat): (n: nat) {
    if decisions == [] then 0
    else
      var n := |decisions| - 1;
      if At(decisions, n, step, length).event == SpeechStart then 0
      else NonSpeechSinceStart(decisions[..n], step, length) + if decisions[n] then 0 else 1
  }

  /** While the gate is open it has counted exactly those batches, too few to close it. */
  lemma {:induction false} OpenGateCounts(decisions: seq<bool>, step: nat, length: nat)
    requires step > 0
    ensures var g := After(decisions, step, length);
            g.batchVad ==>
              && g.hangoverCount == NonSpeechSinceStart(decisions, step, length) * step
              && NonSpeechSinceStart(decisions, step, length) <= length / step
  {
    if decisions != [] {
      var n := |decisions| - 1;
      OpenGateCounts(decisions[..n], step, length);
      var before := NonSpeechSinceStart(decisions[..n], step, length);
      OneFactorMore(before, step);
      QuotientAtLeast(length, step, before + 1);
    }
  }

  /** The end fires exactly on the (length / step + 1)-th non-speech batch since the start. */
  lemma EndFiresOnTime(decisions: seq<bool>, k: nat, step: nat, length: nat)
    requires step > 0 && k < |decisions|
    ensures At(decisions, k, step, length).event == SpeechEnd <==>
            && After(decisions[..k], step, length).batchVad && !decisions[k]
            && NonSpeechSinceStart(decisions[..k], step, length) == length / step
  {
    OpenGateCounts(decisions[..k], step, length);
    var before := NonSpeechSinceStart(decisions[..k], step, length);
    OneFactorMore(before, step);
    QuotientAtLeast(length, step, before + 1);
  }

  /** The first batch that is emitted never ends the speech. */
  lemma FirstEmittedDoesNotEndSpeech(decisions: seq<bool>, k: nat, step: nat, length: nat)
    requires k < |decisions|
    requires forall j :: 0 <= j < k ==> !At(decisions, j, step, length).emitted
    ensures At(decisions, k, step, length).event != SpeechEnd
  {
    if k > 0 {
      AfterOneMore(decisions, k - 1, step, length);
    }
  }

  /** From a start on, up to its end, the gate stays open. */
  ghost predicate OpenFrom(decisions: seq<bool>, first: nat, k: nat, step: nat, length: nat)
    requires k < |decisions|
  {
    && first <= k
    && At(decisions, first, step, length).event == SpeechStart
    && forall j :: first < j <= k ==> At(decisions, j, step, length).event == NoEvent
  }

  lemma AfterOneMore(decisions: seq<bool>, k: nat, step: nat, length: nat)
    requires k < |decisions|
    ensures After(decisions[..k + 1], step, length) == At(decisions, k, step, length).gate
    ensures NonSpeechSinceStart(decisions[..k + 1], step, length) ==
            if At(decisions, k, step, length).event == SpeechStart then 0
            else NonSpeechSinceStart(decisions[..k], step, length) + if decisions[k] then 0 else 1
  {
    assert decisions[..k + 1][..k] == decisions[..k];
  }

  /** A closed gate stays closed and silent through non-speech, and opens at the first speech batch, which it lets
      through. */
  lemma {:induction false} OpensAtSpeech(decisions: seq<bool>, k: nat, n: nat, step: nat, length: nat)
    requires k <= n < |decisions| && !After(decisions[..k], step, length).batchVad
    requires forall j :: k <= j < n ==> !decisions[j]
    ensures !After(decisions[..n], step, length).batchVad
    ensures At(decisions, n, step, length).emitted <==> decisions[n]
    ensures At(decisions, n, step, length).event == if decisions[n] then SpeechStart else NoEvent
    ensures After(decisions[..n + 1], step, length).batchVad <==> decisions[n]
    decreases n
  {
    if k < n {
      OpensAtSpeech(decisions, k, n - 1, step, length);
      assert decisions[..n - 1 + 1] == decisions[..n];
    }
    AfterOneMore(decisions, n, step, length);
  }

  /** An open gate lets every batch through, and it is closed by an end alone. */
  lemma OpenGateLetsThrough(decisions: seq<bool>, k: nat, step: nat, length: nat)
    requires k < |decisions| && After(decisions[..k], step, length).batchVad
    ensures At(decisions, k, step, length).emitted && At(decisions, k, step, length).event != SpeechStart
    ensures After(decisions[..k + 1], step, length).batchVad <==> At(decisions, k, step, length).event != SpeechEnd
  {
    AfterOneMore(decisions, k, step, length);
  }

  /** Every batch from the start on is emitted, and no more non-speech has been counted than batches. */
  lemma {:induction false} OpenGateEmits(decisions: seq<bool>, first: nat, k: nat, step: nat, length: nat)
    requires k < |decisions| && OpenFrom(decisions, first, k, step, length)
    ensures After(decisions[..k + 1], step, length).batchVad
    ensures At(decisions, k, step, length).emitted
    ensures NonSpeechSinceStart(decisions[..k + 1], step, length) <= k - first
    decreases k
  {
    AfterOneMore(decisions, k, step, length);
    if first < k {
      OpenGateEmits(decisions, first, k - 1, step, length);
      AfterOneMore(decisions, k - 1, step, length);
      assert At(decisions, k, step, length).event == NoEvent;
    }
  }

  /** The speech that starts at batch `first` and ends at batch `last`: all its batches are emitted, the end
      comes on the non-speech batch that completes the hangover, and by then the front of the buffer has passed
      everything that was in it at the start, the onset batch included. */
  lemma SpeechIsEmittedWhole(decisions: seq<bool>, first: nat, last: nat, k: nat, step: nat, length: nat)
    requires step > 0 && first < last < |decisions|
    requires OpenFrom(decisions, first, last - 1, step, length)
    requires At(decisions, last, step, length).event == SpeechEnd
    requires first <= k <= last
    ensures At(decisions, k, step, length).emitted
    ensures NonSpeechSinceStart(decisions[..last + 1], step, length) == length / step + 1
    ensures last * step > first * step + length
  {
    if k < last {
      forall j | first < j <= k
        ensures At(decisions, j, step, length).event == NoEvent
      {
      }
      OpenGateEmits(decisions, first, k, step, length);
    }
    OpenGateEmits(decisions, first, last - 1, step, length);
    assert decisions[..last - 1 + 1] == decisions[..last];
    EndFiresOnTime(decisions, last, step, length);
    AfterOneMore(decisions, last, step, length);
    QuotientAtLeast(length, step, last - first);
    assert (last - first) * step == last * step - first * step;
  }

  // ----- Is the silence that ends the speech consecutive? -----

  /** Among the first `n` batches speech has come back after a non-speech batch, since the start at `first`. */
  ghost predicate SpeechCameBack(decisions: seq<bool>, first: nat, n: nat)
    requires n <= |decisions|
  {
    exists i, j :: first < i < j < n && !decisions[i] && decisions[j]
  }

  /** The last `m` of the first `n` batches are non-speech. */
  ghost predicate SilentFor(decisions: seq<bool>, n: nat, m: nat)
    requires n <= |decisions|
  {
    m <= n && forall j :: n - m <= j < n ==> !decisions[j]
  }

  /** The first `n` batches reach from before the start at `first` to within the speech that ends at `last`. */
  ghost predicate Within(decisions: seq<bool>, first: nat, last: nat, n: nat, step: nat, length: nat) {
    && first < last < |decisions| && first < n <= last + 1
    && OpenFrom(decisions, first, last - 1, step, length)
    && At(decisions, last, step, length).event == SpeechEnd
  }

  /** While the gate is open, the count goes up by one with every non-speech batch. */
  lemma CountOneMore(decisions: seq<bool>, first: nat, last: nat, n: nat, step: nat, length: nat)
    requires Within(decisions, first, last, n, step, length)
    ensures NonSpeechSinceStart(decisions[..n], step, length)
            == if n == first + 1 then 0
               else NonSpeechSinceStart(decisions[..n - 1], step, length) + if decisions[n - 1] then 0 else 1
  {
    var k := n - 1;
    AfterOneMore(decisions, k, step, length);
    assert decisions[..k + 1] == decisions[..n];
    if first < k < last {
      assert At(decisions, k, step, length).event == NoEvent;
    }
  }

  /** Nothing has been counted while there has been speech only, and conversely. */
  lemma {:induction false} NothingCounted(decisions: seq<bool>, first: nat, last: nat, n: nat, step: nat, length: nat)
    requires Within(decisions, first, last, n, step, length)
    ensures NonSpeechSinceStart(decisions[..n], step, length) == 0 <==> forall j :: first < j < n ==> decisions[j]
    decreases n
  {
    CountOneMore(decisions, first, last, n, step, length);
    if n > first + 1 {
      NothingCounted(decisions, first, last, n - 1, step, length);
    }
  }

  /** Batches of non-speech in a row are all counted. */
  lemma {:induction false} RunIsCounted(decisions: seq<bool>, first: nat, last: nat, from: nat, n: nat, step: nat,
                                        length: nat)
    requires Within(decisions, first, last, n, step, length)
    requires first < from <= n && forall j :: from <= j < n ==> !decisions[j]
    ensures NonSpeechSinceStart(decisions[..n], step, length)
            == NonSpeechSinceStart(decisions[..from], step, length) + (n - from)
    decreases n
  {
    if from < n {
      CountOneMore(decisions, first, last, n, step, length);
      RunIsCounted(decisions, first, last, from, n - 1, step, length);
    }
  }

  /** Without speech in between, the non-speech batches since the start are the last ones. */
  lemma {:induction false} SilenceIsARun(decisions: seq<bool>, first: nat, last: nat, n: nat, step: nat, length: nat)
    requires Within(decisions, first, last, n, step, length) && !SpeechCameBack(decisions, first, n)
    ensures var m := NonSpeechSinceStart(decisions[..n], step, length);
            m < n - first && SilentFor(decisions, n, m)
    decreases n
  {
    CountOneMore(decisions, first, last, n, step, length);
    if n > first + 1 {
      SilenceIsARun(decisions, first, last, n - 1, step, length);
      NothingCounted(decisions, first, last, n - 1, step, length);
    }
  }

  /** The speech that starts at batch `first` and ends at batch `last` ends in consecutive non-speech, as long as the
      hangover asks for, if and only if no speech batch has followed a non-speech one since the start. */
  lemma EndsInConsecutiveSilence(decisions: seq<bool>, first: nat, last: nat, step: nat, length: nat)
    requires step > 0 && first < last < |decisions|
    requires OpenFrom(decisions, first, last - 1, step, length)
    requires At(decisions, last, step, length).event == SpeechEnd
    ensures SilentFor(decisions, last + 1, length / step + 1) <==> !SpeechCameBack(decisions, first, last + 1)
  {
    var n, m := last + 1, length / step + 1;
    SpeechIsEmittedWhole(decisions, first, last, last, step, length);
    if !SpeechCameBack(decisions, first, n) {
      SilenceIsARun(decisions, first, last, n, step, length);
    } else if SilentFor(decisions, n, m) {
      OnsetIsSpeech(decisions, first, step, length);
      RunIsCounted(decisions, first, last, n - m, n, step, length);
      NothingCounted(decisions, first, last, n - m, step, length);
    }
  }

  lemma OnsetIsSpeech(decisions: seq<bool>, first: nat, step: nat, length: nat)
    requires first < |decisions| && At(decisions, first, step, length).event == SpeechStart
    ensures decisions[first]
  {
  }

  /** Speech that ends without two neighbouring batches of non-speech. */
  lemma EndWithoutConsecutiveSilence()
    ensures var decisions := [true, false, true, false];
            && At(decisions, 0, 1, 1).event == SpeechStart && At(decisions, 3, 1, 1).event == SpeechEnd
            && SpeechCameBack(decisions, 0, 4) && !SilentFor(decisions, 4, 2)
  {
    var decisions := [true, false, true, false];
    assert decisions[..1] == [true] && decisions[..2] == [true, false] && decisions[..3] == [true, false, true];
    assert [true][..0] == [] && [true, false][..1] == [true] && [true, false, true][..2] == [true, false];
    assert After(decisions[..1], 1, 1) == Gate(true, 0);
    assert After(decisions[..2], 1, 1) == Gate(true, 1);
    assert After(decisions[..3], 1, 1) == Gate(true, 1);
    assert !decisions[1] && decisions[2];
  }

  /** Every sample that was in the buffer at the start leaves through the front while the gate is open. */
  lemma OnsetPasses(decisions: seq<bool>, first: nat, last: nat, sample: nat, step: nat, length: nat)
    returns (k: nat)
    requires step > 0 && first < last < |decisions|
    requires OpenFrom(decisions, first, last - 1, step, length)
    requires At(decisions, last, step, length).event == SpeechEnd
    requires first * step <= sample < first * step + length
    ensures first <= k < last && k * step <= sample < (k + 1) * step
    ensures At(decisions, k, step, length).emitted
  {
    SpeechIsEmittedWhole(decisions, first, last, last, step, length);
    k := BatchOfSample(sample, first, last, step);
    SpeechIsEmittedWhole(decisions, first, last, k, step, length);
  }

  lemma {:induction false} BatchOfSample(sample: nat, first: nat, last: nat, step: nat) returns (k: nat)
    requires first * step <= sample < last * step
    ensures first <= k < last && k * step <= sample < (k + 1) * step
    decreases last
  {
    assert last > first by {
      if last <= first {
        MultiplyMonotonic(last, first, step);
      }
    }
    if sample >= (last - 1) * step {
      k := last - 1;
    } else {
      k := BatchOfSample(sample, first, last - 1, step);
    }
  }

  // ----- The energy detector behind the decisions -----

  datatype VadState = Silence | EndingSpeech | Speech

  /** The energies at which speech begins, begins to end and comes back, and the frames the detector stays on after
      speech. */
  datatype Thresholds = Thresholds(onset: real, offset: real, recover: real, hangover: nat)

  class SimpleEnergyVad {
    const thresholds: Thresholds

    var hangoverCounter: nat
    var state: VadState

    /** The energies of the frames processed so far. */
    ghost var heard: seq<real>

    constructor (thresholds: Thresholds)
      ensures Valid() && this.thresholds == thresholds && heard == []
    {
      this.thresholds := thresholds;
      hangoverCounter, state, heard := 0, Silence, [];
    }

    ghost predicate Valid()
      reads this
    {
      (state, hangoverCounter) == DetectorAfter(thresholds, heard)
    }

    /** Processes one frame by its energy. */
    method Process(energy: real) returns (vad: bool)
      requires Valid()
      modifies this
      ensures Valid() && heard == old(heard) + [energy]
      ensures vad <==> OnAfter(thresholds, heard)
    {
      StateOneMore(thresholds, heard, energy);
      heard := heard + [energy];
      if state == Silence && energy > thresholds.onset {
        state := Speech;
      } else if state == Speech && energy < thresholds.offset {
        state := EndingSpeech;
        hangoverCounter := 0;
      } else if state == EndingSpeech {
        if energy > thresholds.recover {
          state := Speech;
        } else {
          var over := hangoverCounter > thresholds.hangover;
          hangoverCounter := hangoverCounter + 1;
          if over {
            state := Silence;
          }
        }
      }
      vad := state == Speech || state == EndingSpeech;
    }
  }

  function NextState(t: Thresholds, state: VadState, counter: nat, energy: real): (next: (VadState, nat)) {
    match state
    case Silence => (if energy > t.onset then Speech else Silence, counter)
    case Speech => if energy < t.offset then (EndingSpeech, 0) else (Speech, counter)
    case EndingSpeech =>
      if energy > t.recover then (Speech, counter)
      else (if counter > t.hangover then Silence else EndingSpeech, counter + 1)
  }

  function DetectorAfter(t: Thresholds, energies: seq<real>): (after: (VadState, nat)) {
    if energies == [] then (Silence, 0)
    else
      var (state, counter) := DetectorAfter(t, energies[..|energies| - 1]);
      NextState(t, state, counter, energies[|energies| - 1])
  }

  /** The detector's answer on the last of these frames; it starts off. */
  predicate OnAfter(t: Thresholds, energies: seq<real>) {
    DetectorAfter(t, energies).0 != Silence
  }

  /** Its speech has begun or come back, and not begun to end since. */
  predicate InSpeech(t: Thresholds, energies: seq<real>) {
    DetectorAfter(t, energies).0 == Speech
  }

  lemma StateOneMore(t: Thresholds, energies: seq<real>, energy: real)
    ensures var (state, counter) := DetectorAfter(t, energies);
            DetectorAfter(t, energies + [energy]) == NextState(t, state, counter, energy)
  {
    assert (energies + [energy])[..|energies|] == energies;
  }

  lemma OneEnergyMore(run: seq<real>, more: seq<real>)
    requires more != []
    ensures run + more == (run + more[..|more| - 1]) + [more[|more| - 1]]
  {
  }

  /** While it is off the detector stays off as long as no energy exceeds the onset, and turns on at the first that
      does. */
  lemma {:induction false} TurnsOnAtOnset(t: Thresholds, run: seq<real>, quiet: seq<real>, energy: real)
    requires !OnAfter(t, run) && forall i :: 0 <= i < |quiet| ==> quiet[i] <= t.onset
    ensures !OnAfter(t, run + quiet)
    ensures OnAfter(t, run + quiet + [energy]) <==> energy > t.onset
    ensures energy > t.onset ==> InSpeech(t, run + quiet + [energy])
  {
    if quiet == [] {
      assert run + quiet == run;
    } else {
      var n := |quiet| - 1;
      TurnsOnAtOnset(t, run, quiet[..n], quiet[n]);
      OneEnergyMore(run, quiet);
    }
    StateOneMore(t, run + quiet, energy);
  }

  /** Speech goes on as long as no energy is below the offset. */
  lemma {:induction false} SpeechGoesOn(t: Thresholds, run: seq<real>, loud: seq<real>)
    requires InSpeech(t, run) && forall i :: 0 <= i < |loud| ==> loud[i] >= t.offset
    ensures InSpeech(t, run + loud)
  {
    if loud == [] {
      assert run + loud == run;
    } else {
      var n := |loud| - 1;
      SpeechGoesOn(t, run, loud[..n]);
      OneEnergyMore(run, loud);
      StateOneMore(t, run + loud[..n], loud[n]);
    }
  }

  /** After a frame below the offset, frames that do not recover keep the detector on for `hangover` + 1 frames, and the
      next one turns it off. */
  lemma {:induction false} HangoverLasts(t: Thresholds, run: seq<real>, low: real, faint: seq<real>)
    requires InSpeech(t, run) && low < t.offset && |faint| <= t.hangover + 2
    requires forall i :: 0 <= i < |faint| ==> faint[i] <= t.recover
    ensures DetectorAfter(t, run + [low] + faint)
            == (if |faint| < t.hangover + 2 then EndingSpeech else Silence, |faint|)
    ensures OnAfter(t, run + [low] + faint) <==> |faint| < t.hangover + 2
  {
    if faint == [] {
      assert run + [low] + faint == run + [low];
      StateOneMore(t, run, low);
    } else {
      var n := |faint| - 1;
      HangoverLasts(t, run, low, faint[..n]);
      OneEnergyMore(run + [low], faint);
      StateOneMore(t, run + [low] + faint[..n], faint[n]);
    }
  }

  /** A frame that recovers before the detector has turned off cancels the ending: speech goes on as before. */
  lemma RecoveryCancelsEnding(t: Thresholds, run: seq<real>, low: real, faint: seq<real>, energy: real)
    requires InSpeech(t, run) && low < t.offset && |faint| < t.hangover + 2
    requires (forall i :: 0 <= i < |faint| ==> faint[i] <= t.recover) && energy > t.recover
    ensures InSpeech(t, run + [low] + faint + [energy])
  {
    HangoverLasts(t, run, low, faint);
    StateOneMore(t, run + [low] + faint, energy);
  }
}
