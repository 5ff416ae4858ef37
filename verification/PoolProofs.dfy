/** Every step of the pool keeps its invariant, and what follows for whole runs. */
module PoolProofs {
  import opened Pools

  // ----- Steps of worker threads -----

  lemma WorkerStepKeepsWorker(main: MainPc, w: Worker, i: nat)
    requires WorkerInv(main, w, i) && WorkerEnabled(w)
    ensures WorkerInv(main, AfterWorkerStep(w), i)
  {
  }

  /** A worker's step takes nothing from the pool: the place it gives up goes back to the semaphore. */
  lemma WorkerStepKeepsCount(s: State, i: nat)
    requires Inv(s) && Enabled(s, WorkerStep(i))
    ensures Conserved(Apply(s, WorkerStep(i)))
  {
    assert WorkerInv(s.main, s.workers[i], i);
    LoadAfterUpdate(s.workers, i, AfterWorkerStep(s.workers[i]));
  }

  /** A step of another thread does not touch what a worker has in hand. */
  lemma WorkerStepKeepsOthersInHand(s: State, i: nat, j: nat)
    requires Inv(s) && Enabled(s, WorkerStep(i))
    requires j < |s.workers| && j != i && InHand(s.workers[j]).Some?
    ensures InHandAsRecorded(Apply(s, WorkerStep(i)), j)
  {
    assert InHandAsRecorded(s, j);
    assert WorkerInv(s.main, s.workers[i], i);
    assert InHand(s.workers[i]).Some? ==> InHandAsRecorded(s, i);
  }

  lemma WorkerStepKeepsOwnInHand(s: State, i: nat)
    requires Inv(s) && Enabled(s, WorkerStep(i))
    requires InHand(AfterWorkerStep(s.workers[i])).Some?
    ensures InHandAsRecorded(Apply(s, WorkerStep(i)), i)
  {
    assert WorkerInv(s.main, s.workers[i], i);
    assert InHandAsRecorded(s, i);
  }

  lemma WorkerStepKeepsLife(s: State, i: nat, t: nat)
    requires Inv(s) && Enabled(s, WorkerStep(i)) && t < |s.ledger|
    ensures |Apply(s, WorkerStep(i)).ledger| == |s.ledger|
    ensures LifeInv(Apply(s, WorkerStep(i)), t)
  {
    assert LifeInv(s, t);
    assert WorkerInv(s.main, s.workers[i], i);
    assert InHand(s.workers[i]).Some? ==> InHandAsRecorded(s, i);
  }

  lemma WorkerStepKeepsScan(s: State, i: nat)
    requires Inv(s) && Enabled(s, WorkerStep(i))
    ensures ScanInv(Apply(s, WorkerStep(i)))
  {
    var s' := Apply(s, WorkerStep(i));
    assert WorkerInv(s.main, s.workers[i], i);
    if Tried(s).Some? {
      var n := Tried(s).value;
      if SomeUntriedIsFree(s, n) {
        var k :| n <= k < |s.workers| && s.workers[k].task.None?;
        assert s'.workers[k].task.None?;
      }
    }
  }

  lemma WorkerStepKeepsInv(s: State, i: nat)
    requires Inv(s) && Enabled(s, WorkerStep(i))
    ensures Inv(Apply(s, WorkerStep(i)))
  {
    var s' := Apply(s, WorkerStep(i));
    forall j | 0 <= j < |s'.workers|
      ensures WorkerInv(s'.main, s'.workers[j], j)
    {
      assert WorkerInv(s.main, s.workers[j], j);
      if j == i {
        WorkerStepKeepsWorker(s.main, s.workers[i], i);
      }
    }
    forall j | 0 <= j < |s'.workers| && InHand(s'.workers[j]).Some?
      ensures InHandAsRecorded(s', j)
    {
      if j == i {
        WorkerStepKeepsOwnInHand(s, i);
      } else {
        WorkerStepKeepsOthersInHand(s, i, j);
      }
    }
    forall t | 0 <= t < |s'.ledger|
      ensures LifeInv(s', t)
    {
      WorkerStepKeepsLife(s, i, t);
    }
    WorkerStepKeepsCount(s, i);
    WorkerStepKeepsScan(s, i);
  }

  lemma SpuriousKeepsLedger(s: State, i: nat)
    requires Inv(s) && Enabled(s, Spurious(i))
    ensures LedgerInv(Apply(s, Spurious(i)))
  {
    var s' := Apply(s, Spurious(i));
    forall j | 0 <= j < |s'.workers| && InHand(s'.workers[j]).Some?
      ensures InHandAsRecorded(s', j)
    {
      assert InHandAsRecorded(s, j);
    }
    forall t | 0 <= t < |s'.ledger|
      ensures LifeInv(s', t)
    {
      assert LifeInv(s, t);
    }
  }

  lemma SpuriousKeepsScan(s: State, i: nat)
    requires Inv(s) && Enabled(s, Spurious(i))
    ensures ScanInv(Apply(s, Spurious(i)))
  {
    if Tried(s).Some? && SomeUntriedIsFree(s, Tried(s).value) {
      var k :| Tried(s).value <= k < |s.workers| && s.workers[k].task.None?;
      assert Apply(s, Spurious(i)).workers[k].task.None?;
    }
  }

  lemma SpuriousKeepsInv(s: State, i: nat)
    requires Inv(s) && Enabled(s, Spurious(i))
    ensures Inv(Apply(s, Spurious(i)))
  {
    var s' := Apply(s, Spurious(i));
    forall j | 0 <= j < |s'.workers|
      ensures WorkerInv(s'.main, s'.workers[j], j)
    {
      assert WorkerInv(s.main, s.workers[j], j);
    }
    SpuriousKeepsLedger(s, i);
    SpuriousKeepsScan(s, i);
    LoadAfterUpdate(s.workers, i, s.workers[i].(pc := Woken));
  }

  // ----- Steps of the main thread -----

  /** Steps of the main thread that touch no worker it had before and no task. */
  lemma UntouchedKeepsLedger(s: State, s': State)
    requires Inv(s) && s'.ledger == s.ledger && |s.workers| <= |s'.workers|
    requires forall j :: 0 <= j < |s.workers| ==> s'.workers[j] == s.workers[j]
    requires forall j :: |s.workers| <= j < |s'.workers| ==> InHand(s'.workers[j]).None?
    ensures LedgerInv(s')
  {
    forall j | 0 <= j < |s'.workers| && InHand(s'.workers[j]).Some?
      ensures InHandAsRecorded(s', j)
    {
      assert InHandAsRecorded(s, j);
    }
    forall t | 0 <= t < |s'.ledger|
      ensures LifeInv(s', t)
    {
      assert LifeInv(s, t);
    }
  }

  lemma AddWorkerKeepsInv(s: State)
    requires Inv(s) && Enabled(s, AddWorker)
    ensures Inv(Apply(s, AddWorker))
  {
    var s' := Apply(s, AddWorker);
    forall j | 0 <= j < |s'.workers|
      ensures WorkerInv(s'.main, s'.workers[j], j)
    {
      if j < |s.workers| {
        assert WorkerInv(s.main, s.workers[j], j);
      }
    }
    UntouchedKeepsLedger(s, s');
    assert s'.workers[..|s.workers|] == s.workers;
  }

  lemma DispatchKeepsInv(s: State)
    requires Inv(s) && s.main == Idle
    ensures Inv(Apply(s, Dispatch))
  {
    forall j | 0 <= j < |s.workers|
      ensures WorkerInv(Waiting, s.workers[j], j)
    {
      assert WorkerInv(s.main, s.workers[j], j);
    }
    UntouchedKeepsLedger(s, Apply(s, Dispatch));
  }

  lemma ShutdownKeepsInv(s: State)
    requires Inv(s) && s.main == Idle
    ensures Inv(Apply(s, Shutdown))
  {
    var s' := Apply(s, Shutdown);
    forall j | 0 <= j < |s.workers|
      ensures WorkerInv(s'.main, s.workers[j], j)
    {
      assert WorkerInv(s.main, s.workers[j], j);
    }
    UntouchedKeepsLedger(s, s');
  }

  /** The worker a main step deals with, after the step. */
  lemma MainStepKeepsWorker(s: State, j: nat)
    requires MainInv(s) && MainEnabled(s) && j < |s.workers| && WorkerInv(s.main, s.workers[j], j)
    ensures |AfterMainStep(s).workers| == |s.workers|
    ensures WorkerInv(AfterMainStep(s).main, AfterMainStep(s).workers[j], j)
  {
  }

  lemma MainStepKeepsWorkers(s: State)
    requires Inv(s) && MainEnabled(s)
    ensures forall j :: 0 <= j < |AfterMainStep(s).workers| ==>
              WorkerInv(AfterMainStep(s).main, AfterMainStep(s).workers[j], j)
  {
    forall j | 0 <= j < |AfterMainStep(s).workers|
      ensures WorkerInv(AfterMainStep(s).main, AfterMainStep(s).workers[j], j)
    {
      MainStepKeepsWorker(s, j);
    }
  }

  lemma MainStepKeepsInHand(s: State, j: nat)
    requires Inv(s) && MainEnabled(s) && j < |s.workers|
    requires InHand(AfterMainStep(s).workers[j]).Some?
    ensures InHandAsRecorded(AfterMainStep(s), j)
  {
    assert WorkerInv(s.main, s.workers[j], j);
    assert InHand(s.workers[j]).Some? ==> InHandAsRecorded(s, j);
    if s.main.Discarding? && s.workers[s.main.i].task.Some? {
      assert WorkerInv(s.main, s.workers[s.main.i], s.main.i);
      assert InHandAsRecorded(s, s.main.i);
    }
  }

  lemma MainStepKeepsLife(s: State, t: nat)
    requires Inv(s) && MainEnabled(s) && t < |AfterMainStep(s).ledger|
    ensures LifeInv(AfterMainStep(s), t)
  {
    if t < |s.ledger| {
      assert LifeInv(s, t);
      assert WorkerInv(s.main, s.workers[s.ledger[t].worker], s.ledger[t].worker);
    }
    if s.main.Discarding? && s.workers[s.main.i].task.Some? {
      assert WorkerInv(s.main, s.workers[s.main.i], s.main.i);
      assert InHandAsRecorded(s, s.main.i);
    }
    if s.main.Trying? {
      assert WorkerInv(s.main, s.workers[s.main.i], s.main.i);
    }
  }

  lemma AssignKeepsCount(s: State)
    requires MainInv(s) && Conserved(s) && MainEnabled(s)
    requires s.main.Scanning? || s.main.Trying? || s.main.Rejecting? || s.main.Assigning? || s.main.Releasing?
    requires s.main.i < |s.workers| ==> WorkerInv(s.main, s.workers[s.main.i], s.main.i)
    ensures Conserved(AfterMainStep(s))
  {
    var i, s' := s.main.i, AfterMainStep(s);
    if i < |s.workers| {
      assert WorkerInv(s.main, s.workers[i], i);
      LoadAfterUpdate(s.workers, i, s'.workers[i]);
      assert s'.workers == s.workers[i := s'.workers[i]];
    }
  }

  lemma DestroyKeepsCount(s: State)
    requires MainInv(s) && Conserved(s) && MainEnabled(s)
    requires s.main.Disabling? || s.main.Locking? || s.main.Discarding? || s.main.Stopping? || s.main.Unlocking?
    requires WorkerInv(s.main, s.workers[s.main.i], s.main.i)
    ensures Conserved(AfterMainStep(s))
  {
    var i, s' := s.main.i, AfterMainStep(s);
    assert WorkerInv(s.main, s.workers[i], i);
    LoadAfterUpdate(s.workers, i, s'.workers[i]);
    assert s'.workers == s.workers[i := s'.workers[i]];
  }

  lemma MainStepKeepsCount(s: State)
    requires Inv(s) && MainEnabled(s)
    ensures Conserved(AfterMainStep(s))
  {
    if s.main.Scanning? || s.main.Trying? || s.main.Rejecting? || s.main.Assigning? || s.main.Releasing? {
      AssignKeepsCount(s);
    } else if s.main.Waiting? || s.main.Announcing? || s.main.Joining? {
    } else {
      DestroyKeepsCount(s);
    }
  }

  /** A scan starts with a worker that has no task: the count leaves room for it. */
  lemma ScanStartsWithFreeWorker(s: State)
    requires Inv(s) && s.main == Waiting && MainEnabled(s)
    ensures exists k :: 0 <= k < |s.workers| && s.workers[k].task.None?
    ensures ScanInv(AfterMainStep(s))
  {
    SomeWorkerIsFree(s.workers);
    var k :| 0 <= k < |s.workers| && s.workers[k].task.None?;
    assert AfterMainStep(s).workers[k].task.None?;
  }

  /** Trying one more worker: if it has no task and its mutex is not free, its own thread holds it. */
  lemma TryKeepsScan(s: State)
    requires Inv(s) && MainEnabled(s) && s.main.Scanning?
    ensures ScanInv(AfterMainStep(s))
  {
    var n, s' := s.main.i, AfterMainStep(s);
    if n < |s.workers| {
      assert WorkerInv(s.main, s.workers[n], n);
      if s.workers[n].owner != Free && s.workers[n].task.None? {
        assert Unlucky(s'.tries[n]);
        assert SomeUnlucky(s', n + 1);
      }
    }
    if SomeUnlucky(s, n) {
      var k :| 0 <= k < n && Unlucky(s.tries[k]);
      assert Unlucky(s'.tries[k]);
    } else {
      var k :| n <= k < |s.workers| && s.workers[k].task.None?;
      assert s'.workers[k].task.None?;
    }
  }

  lemma RejectKeepsScan(s: State)
    requires Inv(s) && MainEnabled(s) && (s.main.Trying? || s.main.Rejecting?)
    ensures ScanInv(AfterMainStep(s))
  {
    var n, s' := s.main.i, AfterMainStep(s);
    if SomeUnlucky(s, n) {
      var k :| 0 <= k < n && Unlucky(s.tries[k]);
      assert Unlucky(s'.tries[k]);
    } else {
      var k :| n <= k < |s.workers| && s.workers[k].task.None?;
      assert s.main.Rejecting? || s.workers[n].task.Some? ==> s'.workers[k].task.None?;
    }
  }

  lemma MainStepKeepsScan(s: State)
    requires Inv(s) && MainEnabled(s)
    ensures ScanInv(AfterMainStep(s))
  {
    var s' := AfterMainStep(s);
    match s.main
    case Waiting => ScanStartsWithFreeWorker(s);
    case Scanning(_) => TryKeepsScan(s);
    case Trying(_) => RejectKeepsScan(s);
    case Rejecting(_) => RejectKeepsScan(s);
    case _ =>
  }

  lemma MainStepKeepsLedger(s: State)
    requires Inv(s) && MainEnabled(s)
    ensures LedgerInv(AfterMainStep(s))
  {
    var s' := AfterMainStep(s);
    forall j | 0 <= j < |s'.workers| && InHand(s'.workers[j]).Some?
      ensures InHandAsRecorded(s', j)
    {
      MainStepKeepsInHand(s, j);
    }
    forall t | 0 <= t < |s'.ledger|
      ensures LifeInv(s', t)
    {
      MainStepKeepsLife(s, t);
    }
  }

  lemma MainStepKeepsPlace(s: State)
    requires Inv(s) && MainEnabled(s)
    ensures MainInv(AfterMainStep(s))
    ensures AfterMainStep(s).discarded == 0 || ShuttingDown(AfterMainStep(s).main)
  {
  }

  lemma MainStepKeepsInv(s: State)
    requires Inv(s) && MainEnabled(s)
    ensures Inv(AfterMainStep(s))
  {
    MainStepKeepsPlace(s);
    MainStepKeepsWorkers(s);
    MainStepKeepsLedger(s);
    MainStepKeepsCount(s);
    MainStepKeepsScan(s);
  }
}
