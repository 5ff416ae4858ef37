/** Splitting an alignment, a sequence of transition ids, into phones. */
module PhoneSplits {
  import opened Basics

  /** The tables of the transition model that the splitter consults. */
  datatype TransitionModel = TransitionModel(
    stateOf: int -> int,       // transition id to transition state
    isFinal: int -> bool,      // transition id: leaves the phone
    isSelfLoop: int -> bool,   // transition id: stays in its state
    phoneOf: int -> int,       // transition state to phone
    hmmStateOf: int -> int)    // transition state to HMM state
  {
    function Phone(id: int): (phone: int) {
      phoneOf(stateOf(id))
    }
  }

  // ----- Where phones end -----

  /** `a[i]` is a final transition or, if self-loops come last, one of the self-loops right after it. */
  predicate Leaving(tm: TransitionModel, a: seq<int>, reordered: bool, i: nat)
    requires i < |a|
  {
    tm.isFinal(a[i]) || (reordered && i > 0 && tm.isSelfLoop(a[i]) && Leaving(tm, a, reordered, i - 1))
  }

  /** A phone ends after `a[i]`. */
  predicate EndsAfter(tm: TransitionModel, a: seq<int>, reordered: bool, i: nat)
    requires i < |a|
  {
    i + 1 == |a| ||
    if Leaving(tm, a, reordered, i) then !(reordered && tm.isSelfLoop(a[i + 1]))
    else tm.Phone(a[i]) != tm.Phone(a[i + 1])
  }

  /** The end points of the phones among the first `n` transitions. */
  function EndPoints(tm: TransitionModel, a: seq<int>, reordered: bool, n: nat): (ends: seq<nat>)
    requires n <= |a|
    ensures Ascending(ends, n)
  {
    if n == 0 then []
    else EndPoints(tm, a, reordered, n - 1) + if EndsAfter(tm, a, reordered, n - 1) then [n] else []
  }

  /** Where the `k`-th piece starts: at the end point before its own. */
  function From(ends: seq<nat>, k: nat): (from: nat)
    requires k <= |ends|
  {
    if k == 0 then 0 else ends[k - 1]
  }

  predicate Ascending(ends: seq<nat>, n: nat) {
    && (forall k :: 0 <= k < |ends| ==> 0 < ends[k] <= n)
    && (forall j, k :: 0 <= j < k < |ends| ==> ends[j] < ends[k])
  }

  /** The pieces between the end points. */
  function Pieces(a: seq<int>, ends: seq<nat>): (pieces: seq<seq<int>>)
    requires Ascending(ends, |a|)
  {
    seq(|ends|, k requires 0 <= k < |ends| => a[From(ends, k)..ends[k]])
  }

  /** The phones of an alignment. */
  function Split(tm: TransitionModel, a: seq<int>, reordered: bool): (pieces: seq<seq<int>>) {
    Pieces(a, EndPoints(tm, a, reordered, |a|))
  }

  /** The consistency checks: every phone is left by a final transition, and starts in HMM state 0. */
  predicate Consistent(tm: TransitionModel, a: seq<int>, reordered: bool) {
    && LeftWell(tm, a, reordered, |a|)
    && (forall k :: 0 <= k < |Split(tm, a, reordered)| ==> StartsWell(tm, Split(tm, a, reordered)[k]))
  }

  /** Every phone that ends among the first `n` transitions is left by a final transition. */
  predicate LeftWell(tm: TransitionModel, a: seq<int>, reordered: bool, n: nat)
    requires n <= |a|
  {
    forall i :: 0 <= i < n && EndsAfter(tm, a, reordered, i) ==> Leaving(tm, a, reordered, i)
  }

  predicate StartsWell(tm: TransitionModel, piece: seq<int>) {
    piece != [] && tm.hmmStateOf(tm.stateOf(piece[0])) == 0
  }

  /** The assertion in the source: the self-loops after a final transition stay in its state. */
  predicate LoopsStay(tm: TransitionModel, a: seq<int>, reordered: bool) {
    reordered ==> forall i :: 0 <= i < |a| - 1 && Leaving(tm, a, reordered, i) ==> StaysAfter(tm, a, i)
  }

  predicate StaysAfter(tm: TransitionModel, a: seq<int>, i: nat)
    requires i + 1 < |a|
  {
    tm.isSelfLoop(a[i + 1]) ==> tm.stateOf(a[i]) == tm.stateOf(a[i + 1])
  }

  // ----- The pieces partition the alignment -----

  lemma {:induction false} PiecesPartition(a: seq<int>, ends: seq<nat>, k: nat)
    requires Ascending(ends, |a|) && k <= |ends|
    ensures Concat(Pieces(a, ends)[..k]) == a[..From(ends, k)]
  {
    if k > 0 {
      PiecesPartition(a, ends, k - 1);
      var pieces := Pieces(a, ends);
      assert pieces[..k][..k - 1] == pieces[..k - 1];
    }
  }

  lemma {:induction false} NoEndAfterLast(tm: TransitionModel, a: seq<int>, reordered: bool, n: nat)
    requires n <= |a|
    ensures forall i :: LastEnd(tm, a, reordered, n) <= i < n ==> !EndsAfter(tm, a, reordered, i)
    ensures n > 0 && EndsAfter(tm, a, reordered, n - 1) ==> LastEnd(tm, a, reordered, n) == n
  {
    if n > 0 {
      NoEndAfterLast(tm, a, reordered, n - 1);
    }
  }

  function LastEnd(tm: TransitionModel, a: seq<int>, reordered: bool, n: nat): (end: nat)
    requires n <= |a|
  {
    From(EndPoints(tm, a, reordered, n), |EndPoints(tm, a, reordered, n)|)
  }

  lemma PiecesNonEmpty(a: seq<int>, ends: seq<nat>)
    requires Ascending(ends, |a|)
    ensures forall k :: 0 <= k < |ends| ==> Pieces(a, ends)[k] != []
  {
    assert forall k :: 0 <= k < |ends| ==> |Pieces(a, ends)[k]| == ends[k] - From(ends, k);
  }

  /** The end of an alignment is an end point. */
  lemma LastEndIsTheEnd(tm: TransitionModel, a: seq<int>, reordered: bool)
    ensures LastEnd(tm, a, reordered, |a|) == |a|
  {
    NoEndAfterLast(tm, a, reordered, |a|);
  }

  /** The pieces are not empty and their concatenation is the alignment. */
  lemma SplitPartitions(tm: TransitionModel, a: seq<int>, reordered: bool)
    ensures Concat(Split(tm, a, reordered)) == a
    ensures forall k :: 0 <= k < |Split(tm, a, reordered)| ==> Split(tm, a, reordered)[k] != []
  {
    var ends := EndPoints(tm, a, reordered, |a|);
    LastEndIsTheEnd(tm, a, reordered);
    PiecesPartition(a, ends, |ends|);
    PiecesNonEmpty(a, ends);
    assert Pieces(a, ends)[..|ends|] == Pieces(a, ends);
  }

  /** No phone ends inside a piece, and one ends with it. */
  lemma {:induction false} PieceEnds(tm: TransitionModel, a: seq<int>, reordered: bool, n: nat, k: nat)
    requires n <= |a| && k < |EndPoints(tm, a, reordered, n)|
    ensures var ends := EndPoints(tm, a, reordered, n);
            && EndsAfter(tm, a, reordered, ends[k] - 1)
            && forall i :: From(ends, k) <= i < ends[k] - 1 ==> !EndsAfter(tm, a, reordered, i)
  {
    if k < |EndPoints(tm, a, reordered, n - 1)| {
      PieceEnds(tm, a, reordered, n - 1, k);
    } else {
      NoEndAfterLast(tm, a, reordered, n - 1);
    }
  }

  lemma {:induction false} SamePhoneAlong(tm: TransitionModel, a: seq<int>, reordered: bool, from: nat, to: nat)
    requires LoopsStay(tm, a, reordered)
    requires from <= to < |a|
    requires forall i :: from <= i < to ==> !EndsAfter(tm, a, reordered, i)
    ensures forall i :: from <= i <= to ==> tm.Phone(a[i]) == tm.Phone(a[from])
  {
    if from < to {
      SamePhoneAlong(tm, a, reordered, from, to - 1);
      assert !EndsAfter(tm, a, reordered, to - 1);
      assert Leaving(tm, a, reordered, to - 1) && reordered ==> StaysAfter(tm, a, to - 1);
    }
  }

  /** Every piece is of one phone. */
  lemma PiecesAreOfOnePhone(tm: TransitionModel, a: seq<int>, reordered: bool, k: nat)
    requires LoopsStay(tm, a, reordered)
    requires k < |Split(tm, a, reordered)|
    ensures var piece := Split(tm, a, reordered)[k];
            piece != [] && forall j :: 0 <= j < |piece| ==> tm.Phone(piece[j]) == tm.Phone(piece[0])
  {
    var ends := EndPoints(tm, a, reordered, |a|);
    var from, end := From(ends, k), ends[k];
    PieceEnds(tm, a, reordered, |a|, k);
    SamePhoneAlong(tm, a, reordered, from, end - 1);
    assert Split(tm, a, reordered)[k] == a[from..end];
  }

  // ----- What the consistency checks check -----

  /** A final transition of the phone that no others follow or, if self-loops come last, self-loops alone. */
  ghost predicate LeftBy(tm: TransitionModel, phone: seq<int>, reordered: bool, f: nat) {
    && f < |phone| && tm.isFinal(phone[f])
    && (f == |phone| - 1 || (reordered && forall j :: f < j < |phone| ==> tm.isSelfLoop(phone[j])))
  }

  /** The final transition that makes `a[i]` a leaving one. */
  lemma {:induction false} LeavingMeans(tm: TransitionModel, a: seq<int>, reordered: bool, i: nat) returns (f: nat)
    requires i < |a| && Leaving(tm, a, reordered, i)
    ensures f <= i && tm.isFinal(a[f])
    ensures f == i || (reordered && forall j :: f < j <= i ==> tm.isSelfLoop(a[j]))
    ensures forall j :: f <= j <= i ==> Leaving(tm, a, reordered, j)
  {
    if tm.isFinal(a[i]) {
      f := i;
    } else {
      f := LeavingMeans(tm, a, reordered, i - 1);
    }
  }

  lemma {:induction false} LeavingFrom(tm: TransitionModel, a: seq<int>, reordered: bool, f: nat, i: nat)
    requires f <= i < |a| && tm.isFinal(a[f])
    requires f == i || (reordered && forall j :: f < j <= i ==> tm.isSelfLoop(a[j]))
    ensures Leaving(tm, a, reordered, i)
  {
    if f < i {
      LeavingFrom(tm, a, reordered, f, i - 1);
    }
  }

  /** Where a phone ends there is an end point. */
  lemma {:induction false} EndIsEndPoint(tm: TransitionModel, a: seq<int>, reordered: bool, n: nat, i: nat)
    returns (k: nat)
    requires i < n <= |a| && EndsAfter(tm, a, reordered, i)
    ensures k < |EndPoints(tm, a, reordered, n)| && EndPoints(tm, a, reordered, n)[k] == i + 1
  {
    if i == n - 1 {
      k := |EndPoints(tm, a, reordered, n)| - 1;
    } else {
      k := EndIsEndPoint(tm, a, reordered, n - 1, i);
    }
  }

  lemma LeftByInside(tm: TransitionModel, a: seq<int>, reordered: bool, from: nat, end: nat, f: nat)
    requires f < end - from && from <= end <= |a|
    ensures LeftBy(tm, a[from..end], reordered, f) <==>
              && tm.isFinal(a[from + f])
              && (from + f == end - 1 ||
                  (reordered && forall j :: from + f < j <= end - 1 ==> tm.isSelfLoop(a[j])))
  {
    var piece := a[from..end];
    assert piece[f] == a[from + f];
    if forall j :: f < j < |piece| ==> tm.isSelfLoop(piece[j]) {
      forall j | from + f < j <= end - 1
        ensures tm.isSelfLoop(a[j])
      {
        assert a[j] == piece[j - from];
      }
    } else {
      var j :| f < j < |piece| && !tm.isSelfLoop(piece[j]);
      assert piece[j] == a[from + j];
    }
  }

  /** The final transition that leaves a piece stands in it: the piece before was not continued by its first. */
  lemma LeavesFromInside(tm: TransitionModel, a: seq<int>, reordered: bool, k: nat, f: nat)
    requires k < |EndPoints(tm, a, reordered, |a|)| && f < EndPoints(tm, a, reordered, |a|)[k]
    requires var last := EndPoints(tm, a, reordered, |a|)[k] - 1;
             f == last || (reordered && forall j :: f < j <= last ==> tm.isSelfLoop(a[j]))
    requires forall j :: f <= j < EndPoints(tm, a, reordered, |a|)[k] ==> Leaving(tm, a, reordered, j)
    ensures f >= From(EndPoints(tm, a, reordered, |a|), k)
  {
    var ends := EndPoints(tm, a, reordered, |a|);
    var from := From(ends, k);
    if f < from {
      assert from == ends[k - 1] < ends[k];
      assert tm.isSelfLoop(a[from]);
      assert Leaving(tm, a, reordered, from - 1);
      PieceEnds(tm, a, reordered, |a|, k - 1);
    }
  }

  /** A piece that is left well has its final transition inside. */
  lemma FinalInPiece(tm: TransitionModel, a: seq<int>, reordered: bool, k: nat) returns (f: nat)
    requires k < |Split(tm, a, reordered)| && LeftWell(tm, a, reordered, |a|)
    ensures LeftBy(tm, Split(tm, a, reordered)[k], reordered, f)
  {
    var ends := EndPoints(tm, a, reordered, |a|);
    var from, end := From(ends, k), ends[k];
    PieceEnds(tm, a, reordered, |a|, k);
    var at := LeavingMeans(tm, a, reordered, end - 1);
    LeavesFromInside(tm, a, reordered, k, at);
    f := at - from;
    LeftByInside(tm, a, reordered, from, end, f);
  }

  /** A piece with such a transition is left well. */
  lemma PieceLeftWell(tm: TransitionModel, a: seq<int>, reordered: bool, k: nat, f: nat)
    requires k < |Split(tm, a, reordered)| && LeftBy(tm, Split(tm, a, reordered)[k], reordered, f)
    ensures Leaving(tm, a, reordered, EndPoints(tm, a, reordered, |a|)[k] - 1)
  {
    var ends := EndPoints(tm, a, reordered, |a|);
    var from, end := From(ends, k), ends[k];
    LeftByInside(tm, a, reordered, from, end, f);
    LeavingFrom(tm, a, reordered, from + f, end - 1);
  }

  /** The phone starts in HMM state 0 and is left by a final transition. */
  ghost predicate PassesChecks(tm: TransitionModel, phone: seq<int>, reordered: bool) {
    && phone != [] && tm.hmmStateOf(tm.stateOf(phone[0])) == 0
    && exists f :: LeftBy(tm, phone, reordered, f)
  }

  /** The checks pass if and only if every phone of the split starts in HMM state 0 and is left by a final
      transition. */
  lemma ChecksPassExactly(tm: TransitionModel, a: seq<int>, reordered: bool)
    ensures Consistent(tm, a, reordered) <==>
              forall k :: 0 <= k < |Split(tm, a, reordered)| ==> PassesChecks(tm, Split(tm, a, reordered)[k], reordered)
  {
    var pieces := Split(tm, a, reordered);
    if Consistent(tm, a, reordered) {
      forall k | 0 <= k < |pieces|
        ensures PassesChecks(tm, pieces[k], reordered)
      {
        assert StartsWell(tm, pieces[k]);
        var f := FinalInPiece(tm, a, reordered, k);
      }
    }
    if forall k :: 0 <= k < |pieces| ==> PassesChecks(tm, pieces[k], reordered) {
      forall i | 0 <= i < |a| && EndsAfter(tm, a, reordered, i)
        ensures Leaving(tm, a, reordered, i)
      {
        var k := EndIsEndPoint(tm, a, reordered, |a|, i);
        assert PassesChecks(tm, pieces[k], reordered);
        var f :| LeftBy(tm, pieces[k], reordered, f);
        PieceLeftWell(tm, a, reordered, k, f);
      }
      forall k | 0 <= k < |pieces|
        ensures StartsWell(tm, pieces[k])
      {
        assert PassesChecks(tm, pieces[k], reordered);
      }
    }
  }

  // ----- The splitter -----

  lemma OneTransitionMore(tm: TransitionModel, a: seq<int>, reordered: bool, i: nat)
    requires i < |a|
    ensures EndPoints(tm, a, reordered, i + 1)
            == EndPoints(tm, a, reordered, i) + if EndsAfter(tm, a, reordered, i) then [i + 1] else []
    ensures LeftWell(tm, a, reordered, i + 1) <==>
              LeftWell(tm, a, reordered, i) && (EndsAfter(tm, a, reordered, i) ==> Leaving(tm, a, reordered, i))
  {
  }

  /** Skips the self-loops after a final transition: no phone ends there. */
  method SkipLoops(tm: TransitionModel, alignment: seq<int>, final: nat) returns (i: nat)
    requires LoopsStay(tm, alignment, true)
    requires final < |alignment| && Leaving(tm, alignment, true, final)
    ensures final <= i < |alignment| && Leaving(tm, alignment, true, i) && EndsAfter(tm, alignment, true, i)
    ensures i + 1 < |alignment| ==> !tm.isSelfLoop(alignment[i + 1])
    ensures EndPoints(tm, alignment, true, i) == EndPoints(tm, alignment, true, final)
    ensures LeftWell(tm, alignment, true, i) <==> LeftWell(tm, alignment, true, final)
  {
    i := final;
    while i + 1 < |alignment| && tm.isSelfLoop(alignment[i + 1])
      invariant final <= i < |alignment| && Leaving(tm, alignment, true, i)
      invariant EndPoints(tm, alignment, true, i) == EndPoints(tm, alignment, true, final)
      invariant LeftWell(tm, alignment, true, i) <==> LeftWell(tm, alignment, true, final)
    {
      assert StaysAfter(tm, alignment, i);
      assert tm.stateOf(alignment[i]) == tm.stateOf(alignment[i + 1]);
      OneTransitionMore(tm, alignment, true, i);
      i := i + 1;
    }
  }

  /** One turn of the first pass: looks at the transition at `i`, and past the self-loops that follow it if it is
      final and they come last.  `ends` tells whether a phone ends after `last`, `ok` whether it is left well. */
  method LookAt(tm: TransitionModel, alignment: seq<int>, reordered: bool, i: nat)
    returns (last: nat, ends: bool, ok: bool)
    requires LoopsStay(tm, alignment, reordered) && i < |alignment|
    requires 0 < i && reordered && tm.isSelfLoop(alignment[i]) ==> !Leaving(tm, alignment, reordered, i - 1)
    ensures i <= last < |alignment|
    ensures EndPoints(tm, alignment, reordered, last) == EndPoints(tm, alignment, reordered, i)
    ensures LeftWell(tm, alignment, reordered, last) <==> LeftWell(tm, alignment, reordered, i)
    ensures ends <==> EndsAfter(tm, alignment, reordered, last)
    ensures ok <==> (ends ==> Leaving(tm, alignment, reordered, last))
    ensures last + 1 < |alignment| && reordered && tm.isSelfLoop(alignment[last + 1]) ==>
              !Leaving(tm, alignment, reordered, last)
  {
    last, ends, ok := i, false, true;
    var transId := alignment[i];
    if tm.isFinal(transId) {
      if reordered {
        last := SkipLoops(tm, alignment, i);
      }
      ends := true;
    } else if i + 1 == |alignment| {
      ends, ok := true, false;
    } else {
      var thisState, nextState := tm.stateOf(alignment[i]), tm.stateOf(alignment[i + 1]);
      if thisState != nextState {
        var thisPhone, nextPhone := tm.phoneOf(thisState), tm.phoneOf(nextState);
        if thisPhone != nextPhone {
          ends, ok := true, false;
        }
      }
    }
  }

  /** The first pass: finds the end points, and notices ends that are not left by a final transition. */
  method FindEndPoints(tm: TransitionModel, alignment: seq<int>, reordered: bool)
    returns (endPoints: seq<nat>, wasOk: bool)
    requires LoopsStay(tm, alignment, reordered)
    ensures endPoints == EndPoints(tm, alignment, reordered, |alignment|)
    ensures wasOk <==> LeftWell(tm, alignment, reordered, |alignment|)
  {
    endPoints, wasOk := [], true;
    var i := 0;
    while i < |alignment|
      invariant 0 <= i <= |alignment|
      invariant endPoints == EndPoints(tm, alignment, reordered, i)
      invariant wasOk <==> LeftWell(tm, alignment, reordered, i)
      invariant 0 < i < |alignment| && reordered && tm.isSelfLoop(alignment[i]) ==>
                  !Leaving(tm, alignment, reordered, i - 1)
    {
      var ends, ok;
      i, ends, ok := LookAt(tm, alignment, reordered, i);
      OneTransitionMore(tm, alignment, reordered, i);
      if ends {
        endPoints := endPoints + [i + 1];
      }
      wasOk := wasOk && ok;
      i := i + 1;
    }
  }

  /** Copies the transitions between two end points. */
  method CopyPiece(alignment: seq<int>, curPoint: nat, endPoint: nat) returns (piece: seq<int>)
    requires curPoint <= endPoint <= |alignment|
    ensures piece == alignment[curPoint..endPoint]
  {
    piece := [];
    for j := curPoint to endPoint
      invariant piece == alignment[curPoint..j]
    {
      piece := piece + [alignment[j]];
    }
  }

  /** The second pass: cuts the alignment at the end points, and looks at the first transition of each piece. */
  method CutAt(tm: TransitionModel, alignment: seq<int>, endPoints: seq<nat>, ok: bool)
    returns (split: seq<seq<int>>, wasOk: bool)
    requires Ascending(endPoints, |alignment|)
    ensures split == Pieces(alignment, endPoints)
    ensures wasOk <==> ok && forall k :: 0 <= k < |split| ==> StartsWell(tm, split[k])
  {
    ghost var pieces := Pieces(alignment, endPoints);
    split, wasOk := [], ok;
    var curPoint := 0;
    for i := 0 to |endPoints|
      invariant curPoint == From(endPoints, i)
      invariant split == pieces[..i]
      invariant wasOk <==> ok && forall k :: 0 <= k < i ==> StartsWell(tm, pieces[k])
    {
      assert curPoint < endPoints[i] <= |alignment|;
      if tm.hmmStateOf(tm.stateOf(alignment[curPoint])) != 0 {
        wasOk := false;
      }
      var piece := CopyPiece(alignment, curPoint, endPoints[i]);
      assert piece == pieces[i] && piece[0] == alignment[curPoint];
      split := split + [piece];
      curPoint := endPoints[i];
    }
    assert pieces[..|endPoints|] == pieces;
  }

  /** Splits an alignment at its end points; the answer tells whether the consistency checks passed. */
  method SplitToPhonesInternal(tm: TransitionModel, alignment: seq<int>, reordered: bool)
    returns (split: seq<seq<int>>, wasOk: bool)
    requires LoopsStay(tm, alignment, reordered)
    ensures split == Split(tm, alignment, reordered)
    ensures wasOk <==> Consistent(tm, alignment, reordered)
  {
    if |alignment| == 0 {
      return [], true;
    }
    var endPoints;
    endPoints, wasOk := FindEndPoints(tm, alignment, reordered);
    split, wasOk := CutAt(tm, alignment, endPoints, wasOk);
  }

  // ----- Splitting undoes concatenation -----

  /** `f` is the one final transition of a phone: the last one or, if self-loops come last, followed by
      self-loops of its own state only. */
  ghost predicate FinalAt(tm: TransitionModel, phone: seq<int>, reordered: bool, f: nat) {
    && f < |phone|
    && (forall j :: 0 <= j < |phone| ==> (tm.isFinal(phone[j]) <==> j == f))
    && (if reordered
        then forall j :: f < j < |phone| ==> tm.isSelfLoop(phone[j]) && tm.stateOf(phone[j]) == tm.stateOf(phone[f])
        else f == |phone| - 1)
  }

  /** A well-formed stretch of one phone. */
  ghost predicate WellFormedPhone(tm: TransitionModel, phone: seq<int>, reordered: bool) {
    && StartsWell(tm, phone)
    && (forall j :: 0 <= j < |phone| ==> tm.Phone(phone[j]) == tm.Phone(phone[0]))
    && (reordered ==> !tm.isSelfLoop(phone[0]))
    && exists f :: FinalAt(tm, phone, reordered, f)
  }

  /** `a` has the phone `s` at `offset`, and what follows does not continue it. */
  ghost predicate StandsAt(tm: TransitionModel, a: seq<int>, reordered: bool, s: seq<int>, offset: nat) {
    && offset + |s| <= |a| && a[offset..offset + |s|] == s
    && (reordered && offset + |s| < |a| ==> !tm.isSelfLoop(a[offset + |s|]))
  }

  lemma {:induction false} LeavingInPlace(tm: TransitionModel, a: seq<int>, reordered: bool, s: seq<int>,
                                          offset: nat, f: nat, j: nat)
    requires WellFormedPhone(tm, s, reordered) && FinalAt(tm, s, reordered, f) && StandsAt(tm, a, reordered, s, offset)
    requires j < |s|
    ensures Leaving(tm, a, reordered, offset + j) <==> j >= f
  {
    assert a[offset + j] == s[j];
    if j > 0 {
      LeavingInPlace(tm, a, reordered, s, offset, f, j - 1);
    }
  }

  /** A well-formed phone in its place ends exactly after its last transition. */
  lemma EndsInPlace(tm: TransitionModel, a: seq<int>, reordered: bool, s: seq<int>, offset: nat, j: nat)
    requires WellFormedPhone(tm, s, reordered) && StandsAt(tm, a, reordered, s, offset)
    requires j < |s|
    ensures EndsAfter(tm, a, reordered, offset + j) <==> j == |s| - 1
    ensures j == |s| - 1 ==> Leaving(tm, a, reordered, offset + j)
    ensures j < |s| - 1 && reordered && Leaving(tm, a, reordered, offset + j) ==> StaysAfter(tm, a, offset + j)
  {
    var f :| FinalAt(tm, s, reordered, f);
    LeavingInPlace(tm, a, reordered, s, offset, f, j);
    assert a[offset + j] == s[j];
    assert j + 1 < |s| ==> a[offset + j + 1] == s[j + 1];
  }

  lemma {:induction false} EndPointsInPlace(tm: TransitionModel, a: seq<int>, reordered: bool, s: seq<int>,
                                            offset: nat, j: nat)
    requires WellFormedPhone(tm, s, reordered) && StandsAt(tm, a, reordered, s, offset)
    requires j <= |s|
    ensures EndPoints(tm, a, reordered, offset + j) ==
            EndPoints(tm, a, reordered, offset) + if j == |s| then [offset + |s|] else []
  {
    if j > 0 {
      EndPointsInPlace(tm, a, reordered, s, offset, j - 1);
      EndsInPlace(tm, a, reordered, s, offset, j - 1);
    }
  }

  ghost predicate WellFormedPhones(tm: TransitionModel, phones: seq<seq<int>>, reordered: bool) {
    forall k :: 0 <= k < |phones| ==> WellFormedPhone(tm, phones[k], reordered)
  }

  lemma {:induction false} ConcatPrefix(pieces: seq<seq<int>>, k: nat)
    requires k <= |pieces|
    ensures Concat(pieces[..k]) <= Concat(pieces)
  {
    if k == |pieces| {
      assert pieces[..k] == pieces;
    } else {
      var shorter := pieces[..|pieces| - 1];
      ConcatPrefix(shorter, k);
      assert shorter[..k] == pieces[..k];
    }
  }

  /** Where the `k`-th phone starts when the phones are laid end to end. */
  function Start(phones: seq<seq<int>>, k: nat): (offset: nat)
    requires k <= |phones|
  {
    |Concat(phones[..k])|
  }

  lemma StretchOfPrefix(a: seq<int>, whole: seq<int>, offset: nat)
    requires offset <= |a| && a <= whole
    ensures whole[offset..|a|] == a[offset..]
  {
  }

  lemma PieceInPlace(pieces: seq<seq<int>>, k: nat)
    requires k < |pieces|
    ensures Start(pieces, k + 1) == Start(pieces, k) + |pieces[k]| <= |Concat(pieces)|
    ensures Concat(pieces)[Start(pieces, k)..Start(pieces, k + 1)] == pieces[k]
    ensures pieces[k] != [] ==> Concat(pieces)[Start(pieces, k)] == pieces[k][0]
    ensures k + 1 == |pieces| ==> Start(pieces, k + 1) == |Concat(pieces)|
  {
    var before, upTo := Concat(pieces[..k]), Concat(pieces[..k + 1]);
    ConcatPrefix(pieces, k + 1);
    assert pieces[..k + 1][..k] == pieces[..k];
    assert upTo == before + pieces[k];
    Appended(before, pieces[k]);
    StretchOfPrefix(upTo, Concat(pieces), |before|);
    assert pieces[..|pieces|] == pieces;
  }

  lemma StandsAtEnd(tm: TransitionModel, a: seq<int>, reordered: bool, s: seq<int>, offset: nat, end: nat)
    requires end == offset + |s| <= |a| && a[offset..end] == s
    requires reordered && end < |a| ==> !tm.isSelfLoop(a[end])
    ensures StandsAt(tm, a, reordered, s, offset)
  {
  }

  lemma PieceStandsAt(tm: TransitionModel, pieces: seq<seq<int>>, reordered: bool, k: nat)
    requires k < |pieces|
    requires k + 1 < |pieces| ==> pieces[k + 1] != [] && (reordered ==> !tm.isSelfLoop(pieces[k + 1][0]))
    ensures StandsAt(tm, Concat(pieces), reordered, pieces[k], Start(pieces, k))
  {
    var a, offset, end := Concat(pieces), Start(pieces, k), Start(pieces, k + 1);
    PieceInPlace(pieces, k);
    assert end < |a| ==> k + 1 < |pieces| && a[end] == pieces[k + 1][0] by {
      if k + 1 < |pieces| {
        PieceInPlace(pieces, k + 1);
      }
    }
    StandsAtEnd(tm, a, reordered, pieces[k], offset, end);
  }

  lemma PhoneInPlace(tm: TransitionModel, phones: seq<seq<int>>, reordered: bool, k: nat)
    requires WellFormedPhones(tm, phones, reordered) && k < |phones|
    ensures StandsAt(tm, Concat(phones), reordered, phones[k], Start(phones, k))
    ensures Start(phones, k + 1) == Start(phones, k) + |phones[k]|
  {
    PieceInPlace(phones, k);
    assert k + 1 < |phones| ==> WellFormedPhone(tm, phones[k + 1], reordered);
    PieceStandsAt(tm, phones, reordered, k);
  }

  /** The end points of phones laid end to end. */
  function Bounds(phones: seq<seq<int>>, k: nat): (ends: seq<nat>)
    requires k <= |phones|
    ensures |ends| == k
    ensures forall j :: 0 <= j < k ==> ends[j] == Start(phones, j + 1)
  {
    if k == 0 then [] else Bounds(phones, k - 1) + [Start(phones, k)]
  }

  /** What holds of the transitions of the first `n`: ends are left well and self-loops stay. */
  ghost predicate FineTo(tm: TransitionModel, a: seq<int>, reordered: bool, n: nat) {
    && n <= |a|
    && LeftWell(tm, a, reordered, n)
    && (reordered ==> forall i :: 0 <= i < n && i + 1 < |a| && Leaving(tm, a, reordered, i) ==> StaysAfter(tm, a, i))
  }

  lemma {:induction false} FineInPlace(tm: TransitionModel, a: seq<int>, reordered: bool, s: seq<int>, offset: nat,
                                       j: nat)
    requires WellFormedPhone(tm, s, reordered) && StandsAt(tm, a, reordered, s, offset)
    requires FineTo(tm, a, reordered, offset) && j <= |s|
    ensures FineTo(tm, a, reordered, offset + j)
  {
    if j > 0 {
      FineInPlace(tm, a, reordered, s, offset, j - 1);
      EndsInPlace(tm, a, reordered, s, offset, j - 1);
    }
  }

  lemma OnePhoneMore(tm: TransitionModel, phones: seq<seq<int>>, reordered: bool, k: nat)
    requires WellFormedPhones(tm, phones, reordered) && 0 < k <= |phones|
    requires Start(phones, k - 1) <= |Concat(phones)|
    requires EndPoints(tm, Concat(phones), reordered, Start(phones, k - 1)) == Bounds(phones, k - 1)
    requires FineTo(tm, Concat(phones), reordered, Start(phones, k - 1))
    ensures Start(phones, k) <= |Concat(phones)|
    ensures EndPoints(tm, Concat(phones), reordered, Start(phones, k)) == Bounds(phones, k)
    ensures FineTo(tm, Concat(phones), reordered, Start(phones, k))
  {
    var a, phone, offset := Concat(phones), phones[k - 1], Start(phones, k - 1);
    PhoneInPlace(tm, phones, reordered, k - 1);
    assert Start(phones, k) == offset + |phone|;
    EndPointsInPlace(tm, a, reordered, phone, offset, |phone|);
    FineInPlace(tm, a, reordered, phone, offset, |phone|);
  }

  lemma {:induction false} PhonesInPlace(tm: TransitionModel, phones: seq<seq<int>>, reordered: bool, k: nat)
    requires WellFormedPhones(tm, phones, reordered) && k <= |phones|
    ensures Start(phones, k) <= |Concat(phones)|
    ensures EndPoints(tm, Concat(phones), reordered, Start(phones, k)) == Bounds(phones, k)
    ensures FineTo(tm, Concat(phones), reordered, Start(phones, k))
  {
    if k > 0 {
      PhonesInPlace(tm, phones, reordered, k - 1);
      OnePhoneMore(tm, phones, reordered, k);
    }
  }

  lemma PiecesOfBounds(phones: seq<seq<int>>)
    requires Ascending(Bounds(phones, |phones|), |Concat(phones)|)
    ensures Pieces(Concat(phones), Bounds(phones, |phones|)) == phones
  {
    var pieces := Pieces(Concat(phones), Bounds(phones, |phones|));
    forall k | 0 <= k < |phones|
      ensures pieces[k] == phones[k]
    {
      PieceInPlace(phones, k);
      assert From(Bounds(phones, |phones|), k) == Start(phones, k);
    }
  }

  /** Splitting undoes concatenation: the phones of well-formed phones laid end to end are those phones, and all
      checks pass. */
  lemma SplitUndoesConcatenation(tm: TransitionModel, phones: seq<seq<int>>, reordered: bool)
    requires WellFormedPhones(tm, phones, reordered)
    ensures LoopsStay(tm, Concat(phones), reordered)
    ensures Split(tm, Concat(phones), reordered) == phones
    ensures Consistent(tm, Concat(phones), reordered)
  {
    PhonesInPlace(tm, phones, reordered, |phones|);
    assert phones[..|phones|] == phones;
    PiecesOfBounds(phones);
  }

  // ----- Guessing whether self-loops come last -----

  /** Two neighbouring transitions of different states, one of them a self-loop. */
  predicate Decisive(tm: TransitionModel, a: seq<int>, i: nat)
    requires i + 1 < |a|
  {
    tm.stateOf(a[i]) != tm.stateOf(a[i + 1]) && (tm.isSelfLoop(a[i]) || tm.isSelfLoop(a[i + 1]))
  }

  ghost predicate FirstDecisive(tm: TransitionModel, a: seq<int>, i: nat)
    requires i + 1 < |a|
  {
    Decisive(tm, a, i) && forall j :: 0 <= j < i ==> !Decisive(tm, a, j)
  }

  /** The assertion in the source: self-loops of different states do not meet where the order is decided. */
  ghost predicate LoopsDoNotMeet(tm: TransitionModel, a: seq<int>) {
    forall i :: 0 <= i < |a| - 1 && FirstDecisive(tm, a, i) ==> !(tm.isSelfLoop(a[i]) && tm.isSelfLoop(a[i + 1]))
  }

  /** The guess from the transitions from `i` on; without a decisive pair the two ends of the alignment decide. */
  function ReorderedFrom(tm: TransitionModel, a: seq<int>, i: nat): (reordered: bool)
    decreases |a| - i
  {
    if i + 1 >= |a| then a != [] && !tm.isSelfLoop(a[0]) && tm.isSelfLoop(a[|a| - 1])
    else if Decisive(tm, a, i) then tm.isSelfLoop(a[i])
    else ReorderedFrom(tm, a, i + 1)
  }

  function Reordered(tm: TransitionModel, a: seq<int>): (reordered: bool) {
    ReorderedFrom(tm, a, 0)
  }

  method IsReordered(tm: TransitionModel, alignment: seq<int>) returns (reordered: bool)
    requires LoopsDoNotMeet(tm, alignment)
    ensures reordered == Reordered(tm, alignment)
    ensures forall i :: 0 <= i < |alignment| - 1 && FirstDecisive(tm, alignment, i) ==>
              (reordered <==> tm.isSelfLoop(alignment[i]))
    ensures (forall i :: 0 <= i < |alignment| - 1 ==> !Decisive(tm, alignment, i)) ==>
              (reordered <==>
                 alignment != [] && !tm.isSelfLoop(alignment[0]) && tm.isSelfLoop(alignment[|alignment| - 1]))
  {
    var i := 0;
    while i + 1 < |alignment|
      invariant forall j :: 0 <= j < i && j + 1 < |alignment| ==> !Decisive(tm, alignment, j)
      invariant Reordered(tm, alignment) == ReorderedFrom(tm, alignment, i)
    {
      var tstate1, tstate2 := tm.stateOf(alignment[i]), tm.stateOf(alignment[i + 1]);
      if tstate1 != tstate2 {
        var isLoop1, isLoop2 := tm.isSelfLoop(alignment[i]), tm.isSelfLoop(alignment[i + 1]);
        assert isLoop1 || isLoop2 ==> FirstDecisive(tm, alignment, i);
        assert !(isLoop1 && isLoop2);
        if isLoop1 {
          return true;
        }
        if isLoop2 {
          return false;
        }
      }
      i := i + 1;
    }
    if |alignment| == 0 {
      return false;
    }
    var isLoopFront, isLoopBack := tm.isSelfLoop(alignment[0]), tm.isSelfLoop(alignment[|alignment| - 1]);
    if isLoopFront {
      return false;
    }
    return isLoopBack;
  }

  /** Without self-loops the order cannot be told from the alignment, and does not matter to the split. */
  lemma {:induction false} OrderDoesNotMatter(tm: TransitionModel, a: seq<int>, n: nat)
    requires forall i :: 0 <= i < |a| ==> !tm.isSelfLoop(a[i])
    requires n <= |a|
    ensures EndPoints(tm, a, true, n) == EndPoints(tm, a, false, n)
    ensures n == |a| ==> Split(tm, a, true) == Split(tm, a, false)
  {
    if n > 0 {
      OrderDoesNotMatter(tm, a, n - 1);
    }
  }

  method SplitToPhones(tm: TransitionModel, alignment: seq<int>) returns (split: seq<seq<int>>, wasOk: bool)
    requires LoopsDoNotMeet(tm, alignment) && LoopsStay(tm, alignment, Reordered(tm, alignment))
    ensures split == Split(tm, alignment, Reordered(tm, alignment))
    ensures wasOk <==> Consistent(tm, alignment, Reordered(tm, alignment))
    ensures Concat(split) == alignment
    ensures forall k :: 0 <= k < |split| ==>
              split[k] != [] && forall j :: 0 <= j < |split[k]| ==> tm.Phone(split[k][j]) == tm.Phone(split[k][0])
  {
    var isReordered := IsReordered(tm, alignment);
    split, wasOk := SplitToPhonesInternal(tm, alignment, isReordered);
    SplitPartitions(tm, alignment, isReordered);
    forall k | 0 <= k < |split|
      ensures forall j :: 0 <= j < |split[k]| ==> tm.Phone(split[k][j]) == tm.Phone(split[k][0])
    {
      PiecesAreOfOnePhone(tm, alignment, isReordered, k);
    }
  }

  lemma {:induction false} InConcat(pieces: seq<seq<int>>, p: int -> bool)
    ensures (forall i :: 0 <= i < |Concat(pieces)| ==> p(Concat(pieces)[i])) <==>
            (forall k, j :: 0 <= k < |pieces| && 0 <= j < |pieces[k]| ==> p(pieces[k][j]))
  {
    if pieces != [] {
      var shorter, last := pieces[..|pieces| - 1], pieces[|pieces| - 1];
      InConcat(shorter, p);
      var a := Concat(pieces);
      assert a == Concat(shorter) + last;
      assert forall j :: 0 <= j < |last| ==> a[|Concat(shorter)| + j] == last[j];
      assert forall i :: 0 <= i < |Concat(shorter)| ==> a[i] == Concat(shorter)[i];
    }
  }
}
