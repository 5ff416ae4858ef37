/** What holds over every run of the pool. */
module PoolRuns {
  import opened Pools
  import opened PoolProofs

  ghost predicate IsRun(s: State, events: seq<Event>)
    decreases |events|
  {
    events == [] || (Enabled(s, events[0]) && IsRun(Apply(s, events[0]), events[1..]))
  }

  ghost function After(s: State, events: seq<Event>): (s': State)
    requires IsRun(s, events)
    decreases |events|
  {
    if events == [] then s else After(Apply(s, events[0]), events[1..])
  }

  lemma StepKeepsInv(s: State, e: Event)
    requires Inv(s) && Enabled(s, e)
    ensures Inv(Apply(s, e))
  {
    match e
    case WorkerStep(i) => WorkerStepKeepsInv(s, i);
    case Spurious(i) => SpuriousKeepsInv(s, i);
    case AddWorker => AddWorkerKeepsInv(s);
    case Dispatch => DispatchKeepsInv(s);
    case Shutdown => ShutdownKeepsInv(s);
    case MainStep => MainStepKeepsInv(s);
  }

  lemma {:induction false} RunKeepsInv(s: State, events: seq<Event>)
    requires Inv(s) && IsRun(s, events)
    ensures Inv(After(s, events))
    decreases |events|
  {
    if events != [] {
      StepKeepsInv(s, events[0]);
      RunKeepsInv(Apply(s, events[0]), events[1..]);
    }
  }

  ghost predicate Reachable(s: State) {
    exists events :: IsRun(INIT, events) && After(INIT, events) == s
  }

  lemma ReachableMeansInv(s: State)
    requires Reachable(s)
    ensures Inv(s)
  {
    var events :| IsRun(INIT, events) && After(INIT, events) == s;
    RunKeepsInv(INIT, events);
  }

  // ----- Conservation -----

  /** In every reachable state the places of the announced workers are accounted for: free on the semaphore,
      held by the dispatcher, occupied by a worker with a task or about to signal, or given up by a destructor,
      which happens only after the shutdown has begun. */
  lemma PlacesAreConserved(s: State)
    requires Reachable(s)
    ensures s.sem + InDispatch(s.main) + TotalLoad(s.workers) + s.discarded == Announced(s)
    ensures s.discarded > 0 ==> ShuttingDown(s.main)
  {
    ReachableMeansInv(s);
  }

  /** Whenever the semaphore lets the dispatcher pass, some worker has no task. */
  lemma DispatcherFindsFreeWorker(s: State)
    requires Reachable(s) && s.main == Waiting && s.sem > 0
    ensures exists k :: 0 <= k < |s.workers| && s.workers[k].task.None?
  {
    ReachableMeansInv(s);
    ScanStartsWithFreeWorker(s);
  }

  /** The dispatcher's assertion fails only when every worker it found without a task had its mutex held by its
      own thread at that moment, and there was such a worker. */
  lemma AssertFailureExplained(s: State)
    requires Reachable(s) && s.main == AssertFailed
    ensures |s.workers| <= |s.tries|
    ensures forall k :: 0 <= k < |s.workers| && !s.tries[k].hadTask ==> s.tries[k].holder == Thread
    ensures exists k :: 0 <= k < |s.workers| && !s.tries[k].hadTask
  {
    ReachableMeansInv(s);
    assert !SomeUntriedIsFree(s, |s.workers|);
    assert SomeUnlucky(s, |s.workers|);
    var k :| 0 <= k < |s.workers| && Unlucky(s.tries[k]);
    assert !s.tries[k].hadTask;
  }

  /** The events that let it fail: a worker has been announced, but its thread has not yet parked. */
  const TOO_EARLY := [AddWorker, MainStep, WorkerStep(0), Dispatch, MainStep, MainStep, MainStep]

  lemma AssertCanFailAtStart()
    ensures IsRun(INIT, TOO_EARLY)
    ensures After(INIT, TOO_EARLY).main == AssertFailed
  {
  }

  lemma RunsByStep(s: State, events: seq<Event>, s': State)
    requires events != [] && Enabled(s, events[0]) && Apply(s, events[0]) == s'
    ensures IsRun(s', events[1..]) ==> IsRun(s, events) && After(s, events) == After(s', events[1..])
  {
  }

  /** It can also fail later: the worker signals the semaphore while it still holds its mutex, so the waiting
      dispatcher may try the only worker before that worker has parked. */
  lemma AssertCanFailAfterTask(s: State)
    requires Reachable(s) && s.main == Waiting
    requires |s.workers| == 1 && s.workers[0].pc == Deleting && s.sem > 0
    ensures IsRun(s, [MainStep, MainStep, MainStep])
    ensures After(s, [MainStep, MainStep, MainStep]).main == AssertFailed
  {
    ReachableMeansInv(s);
    assert WorkerInv(s.main, s.workers[0], 0);
    var s1 := Apply(s, MainStep);
    var s2 := Apply(s1, MainStep);
    var s3 := Apply(s2, MainStep);
    var events := [MainStep, MainStep, MainStep];
    RunsByStep(s, events, s1);
    RunsByStep(s1, events[1..], s2);
    RunsByStep(s2, events[1..][1..], s3);
    assert events[1..][1..][1..] == [];
  }

  /** A pool of one worker. */
  function Alone(w: Worker, sem: nat, main: MainPc, ledger: seq<Life>, tries: seq<Try>): (s: State) {
    State([w], sem, main, ledger, tries, 0)
  }

  const NEW := Worker(Starting, Free, true, None, None)

  /** The only worker is announced, starts and parks. */
  lemma ParkedIsReachable()
    ensures Reachable(Alone(NEW.(pc := Parked), 1, Idle, [], []))
  {
    assert IsRun(INIT, []) && After(INIT, []) == INIT;
    ReachableByStep(INIT, AddWorker, Alone(NEW, 0, Announcing, [], []));
    ReachableByStep(Alone(NEW, 0, Announcing, [], []), MainStep, Alone(NEW, 1, Idle, [], []));
    var running := NEW.(pc := LoopHead, owner := Thread);
    ReachableByStep(Alone(NEW, 1, Idle, [], []), WorkerStep(0), Alone(running, 1, Idle, [], []));
    var checking := running.(pc := CheckTask);
    ReachableByStep(Alone(running, 1, Idle, [], []), WorkerStep(0), Alone(checking, 1, Idle, [], []));
    ReachableByStep(Alone(checking, 1, Idle, [], []), WorkerStep(0), Alone(NEW.(pc := Parked), 1, Idle, [], []));
  }

  /** It is given a task, and the dispatcher waits with the next one. */
  lemma AssignedIsReachable()
    ensures Reachable(Alone(NEW.(pc := Woken, task := Some(0)), 0, Waiting, [Life(0, 0, 0, 0)], [Try(false, Free)]))
  {
    var w, ledger, tries := NEW.(pc := Parked), [Life(0, 0, 0, 0)], [Try(false, Free)];
    ParkedIsReachable();
    ReachableByStep(Alone(w, 1, Idle, [], []), Dispatch, Alone(w, 1, Waiting, [], []));
    ReachableByStep(Alone(w, 1, Waiting, [], []), MainStep, Alone(w, 0, Scanning(0), [], []));
    var held := w.(owner := Main);
    ReachableByStep(Alone(w, 0, Scanning(0), [], []), MainStep, Alone(held, 0, Trying(0), [], tries));
    var given := held.(task := Some(0));
    ReachableByStep(Alone(held, 0, Trying(0), [], tries), MainStep, Alone(given, 0, Assigning(0), ledger, tries));
    var woken := given.(pc := Woken);
    ReachableByStep(Alone(given, 0, Assigning(0), ledger, tries), MainStep,
        Alone(woken, 0, Releasing(0), ledger, tries));
    var free := woken.(owner := Free);
    ReachableByStep(Alone(woken, 0, Releasing(0), ledger, tries), MainStep, Alone(free, 0, Idle, ledger, tries));
    ReachableByStep(Alone(free, 0, Idle, ledger, tries), Dispatch, Alone(free, 0, Waiting, ledger, tries));
  }

  /** It does the work and signals: the premise of a failure after a task is met in a run. */
  lemma ScanAfterTaskIsReachable() returns (s: State)
    ensures Reachable(s) && s.main == Waiting && |s.workers| == 1 && s.workers[0].pc == Deleting && s.sem > 0
  {
    var tries := [Try(false, Free)];
    var w, ledger := NEW.(pc := Woken, task := Some(0)), [Life(0, 0, 0, 0)];
    AssignedIsReachable();
    var looking := w.(pc := Recheck, owner := Thread);
    ReachableByStep(Alone(w, 0, Waiting, ledger, tries), WorkerStep(0), Alone(looking, 0, Waiting, ledger, tries));
    var working := looking.(pc := Working);
    ReachableByStep(Alone(looking, 0, Waiting, ledger, tries), WorkerStep(0),
        Alone(working, 0, Waiting, ledger, tries));
    var clearing, worked := working.(pc := Clearing), [Life(0, 1, 0, 0)];
    ReachableByStep(Alone(working, 0, Waiting, ledger, tries), WorkerStep(0),
        Alone(clearing, 0, Waiting, worked, tries));
    var signalling := clearing.(pc := Signalling, local := Some(0), task := None);
    ReachableByStep(Alone(clearing, 0, Waiting, worked, tries), WorkerStep(0),
        Alone(signalling, 0, Waiting, worked, tries));
    s := Alone(signalling.(pc := Deleting), 1, Waiting, [Life(0, 1, 1, 0)], tries);
    ReachableByStep(Alone(signalling, 0, Waiting, worked, tries), WorkerStep(0), s);
  }

  // ----- When a scan can fail -----

  /** A worker without a task that is parked. */
  predicate ParkedFree(w: Worker) {
    w.pc == Parked && w.task.None?
  }

  /** A parked worker without a task that the scan has still before it. */
  ghost predicate ParkedAhead(s: State, k: nat) {
    && k < |s.workers| && ParkedFree(s.workers[k])
    && match s.main
       case Waiting => true
       case Scanning(i) => i <= k
       case Trying(i) => i <= k
       case Rejecting(i) => i < k
       case _ => false
  }

  lemma ParkedAheadStep(s: State, e: Event, k: nat)
    requires Inv(s) && Enabled(s, e) && ParkedAhead(s, k) && e != Spurious(k)
    ensures ParkedAhead(Apply(s, e), k) || Apply(s, e).main.Assigning?
  {
    assert WorkerInv(s.main, s.workers[k], k);
  }

  /** The task has been assigned at some point of the run. */
  ghost predicate AssignedWithin(s: State, events: seq<Event>)
    requires IsRun(s, events)
    decreases |events|
  {
    s.main.Assigning? || (events != [] && AssignedWithin(Apply(s, events[0]), events[1..]))
  }

  /** Whatever the other threads do, the scan comes to the parked worker or assigns the task before, as long as
      that worker is not woken spuriously. */
  lemma {:induction false} ParkedWorkerSavesTheScan(s: State, events: seq<Event>, k: nat)
    requires Inv(s) && IsRun(s, events) && ParkedAhead(s, k)
    requires Spurious(k) !in events
    ensures After(s, events).main == AssertFailed ==> AssignedWithin(s, events)
    decreases |events|
  {
    if events != [] {
      var s' := Apply(s, events[0]);
      StepKeepsInv(s, events[0]);
      ParkedAheadStep(s, events[0], k);
      if ParkedAhead(s', k) {
        ParkedWorkerSavesTheScan(s', events[1..], k);
      }
    }
  }

  /** In this run the scan that is about to start, or under way, fails. */
  ghost predicate FailsScan(s: State, events: seq<Event>) {
    IsRun(s, events) && After(s, events).main == AssertFailed && !AssignedWithin(s, events)
  }

  /** A worker that a try cannot give a task to: it has one, or its thread holds the mutex. */
  predicate Unavailable(w: Worker) {
    w.task.Some? || w.owner == Thread
  }

  lemma FailsAfterStep(s: State, e: Event, events: seq<Event>)
    requires Enabled(s, e) && !s.main.Assigning? && FailsScan(Apply(s, e), events)
    ensures FailsScan(s, [e] + events)
  {
    assert ([e] + events)[1..] == events;
  }

  /** A scan past unavailable workers fails, if the dispatcher goes on without being interrupted. */
  lemma {:induction false} UninterruptedScan(s: State, i: nat) returns (events: seq<Event>)
    requires s.main == Scanning(i) && i <= |s.workers|
    requires forall j :: i <= j < |s.workers| ==> Unavailable(s.workers[j])
    ensures FailsScan(s, events) && forall k :: Spurious(k) !in events
    decreases |s.workers| - i
  {
    if i == |s.workers| {
      events := [MainStep];
      assert Apply(s, MainStep).main == AssertFailed;
      assert events[1..] == [];
    } else if s.workers[i].owner == Free {
      var s1 := Apply(s, MainStep);
      var s2 := Apply(s1, MainStep);
      var s3 := Apply(s2, MainStep);
      events := UninterruptedScan(s3, i + 1);
      FailsAfterStep(s2, MainStep, events);
      FailsAfterStep(s1, MainStep, [MainStep] + events);
      FailsAfterStep(s, MainStep, [MainStep] + ([MainStep] + events));
      events := [MainStep] + ([MainStep] + ([MainStep] + events));
    } else {
      events := UninterruptedScan(Apply(s, MainStep), i + 1);
      FailsAfterStep(s, MainStep, events);
      events := [MainStep] + events;
    }
  }

  /** The step with which a thread takes its mutex, if it is about to. */
  predicate AboutToLock(w: Worker) {
    w.task.None? && (w.pc == Starting || w.pc == Woken) && w.owner == Free
  }

  /** While the dispatcher waits, a worker is unavailable, about to be, or parked without a task. */
  lemma WaitingWorkers(s: State, i: nat)
    requires Inv(s) && s.main == Waiting && i < |s.workers|
    ensures Unavailable(s.workers[i]) || AboutToLock(s.workers[i]) || ParkedFree(s.workers[i])
  {
    assert WorkerInv(s.main, s.workers[i], i);
  }

  /** A thread locks its mutex or wakes up spuriously while the dispatcher waits. */
  lemma StirringWhileWaiting(s: State, e: Event, i: nat)
    requires Inv(s) && s.main == Waiting && i < |s.workers|
    requires if AboutToLock(s.workers[i]) then e == WorkerStep(i) else ParkedFree(s.workers[i]) && e == Spurious(i)
    ensures Enabled(s, e)
    ensures var s' := Apply(s, e);
            && Inv(s') && s'.main == Waiting && s'.sem == s.sem && |s'.workers| == |s.workers|
            && (forall j :: 0 <= j < |s.workers| && j != i ==> s'.workers[j] == s.workers[j])
            && !ParkedFree(s'.workers[i])
            && if e.WorkerStep? then Unavailable(s'.workers[i]) else AboutToLock(s'.workers[i])
  {
    assert WorkerInv(s.main, s.workers[i], i);
    StepKeepsInv(s, e);
  }

  /** None of the first `n` workers is parked without a task. */
  predicate NoneParked(s: State, n: nat) {
    n <= |s.workers| && forall i :: 0 <= i < n ==> !ParkedFree(s.workers[i])
  }

  /** The dispatcher waits, and from worker `n` on a try would meet unavailable workers only. */
  ghost predicate LockedFrom(s: State, n: nat) {
    && Inv(s) && s.main == Waiting && s.sem > 0 && n <= |s.workers|
    && forall i :: n <= i < |s.workers| ==> Unavailable(s.workers[i])
  }

  ghost predicate NoSpurious(events: seq<Event>) {
    forall k :: Spurious(k) !in events
  }

  /** A step of the last thread that has not locked yet: it locks or, if it is parked, wakes up. */
  lemma StirLast(s: State, n: nat) returns (e: Event)
    requires LockedFrom(s, n) && n > 0 && !Unavailable(s.workers[n - 1])
    ensures Enabled(s, e) && !s.main.Assigning? && (e == WorkerStep(n - 1) || e == Spurious(n - 1))
    ensures e.WorkerStep? ==> LockedFrom(Apply(s, e), n - 1) && (NoneParked(s, n) ==> NoneParked(Apply(s, e), n - 1))
    ensures e.Spurious? ==> LockedFrom(Apply(s, e), n) && !NoneParked(s, n)
    ensures e.Spurious? ==> ParkedFree(s.workers[n - 1]) && !ParkedFree(Apply(s, e).workers[n - 1])
  {
    WaitingWorkers(s, n - 1);
    e := if AboutToLock(s.workers[n - 1]) then WorkerStep(n - 1) else Spurious(n - 1);
    StirringWhileWaiting(s, e, n - 1);
  }

  /** The threads take their mutexes before the dispatcher looks; a parked thread has to be woken for that. */
  lemma {:induction false} ThreadsLockFirst(s: State, n: nat) returns (events: seq<Event>)
    requires LockedFrom(s, n)
    ensures FailsScan(s, events)
    ensures NoneParked(s, n) ==> NoSpurious(events)
    decreases n, n > 0 && ParkedFree(s.workers[n - 1])
  {
    if n == 0 {
      var rest := UninterruptedScan(Apply(s, MainStep), 0);
      FailsAfterStep(s, MainStep, rest);
      events := [MainStep] + rest;
    } else if Unavailable(s.workers[n - 1]) {
      events := ThreadsLockFirst(s, n - 1);
    } else {
      var e := StirLast(s, n);
      var rest := ThreadsLockFirst(Apply(s, e), if e.WorkerStep? then n - 1 else n);
      FailsAfterStep(s, e, rest);
      events := [e] + rest;
    }
  }

  /** When the semaphore is about to let the dispatcher pass, some interleaving without spurious wakeups fails the
      scan if and only if no worker without a task is parked. */
  lemma ScanCanFail(s: State)
    requires Reachable(s) && s.main == Waiting && s.sem > 0
    ensures (exists events :: FailsScan(s, events) && forall k :: Spurious(k) !in events)
            <==> forall k :: 0 <= k < |s.workers| ==> !ParkedFree(s.workers[k])
  {
    ReachableMeansInv(s);
    if k :| 0 <= k < |s.workers| && ParkedFree(s.workers[k]) {
      forall events | IsRun(s, events) && Spurious(k) !in events
        ensures !FailsScan(s, events)
      {
        ParkedWorkerSavesTheScan(s, events, k);
      }
    } else {
      var events := ThreadsLockFirst(s, |s.workers|);
    }
  }

  /** With a spurious wakeup at the wrong moment any scan can fail. */
  lemma SpuriousWakeupsFailAnyScan(s: State) returns (events: seq<Event>)
    requires Reachable(s) && s.main == Waiting && s.sem > 0
    ensures FailsScan(s, events)
  {
    ReachableMeansInv(s);
    events := ThreadsLockFirst(s, |s.workers|);
  }

  // ----- Tasks -----

  /** No task is deleted twice, and what is deleted was either worked on and reported exactly once or, discarded
      by a destructor, never begun. */
  lemma TasksAreDeletedOnce(s: State, t: nat)
    requires Reachable(s) && t < |s.ledger|
    ensures s.ledger[t].deletes <= 1
    ensures s.ledger[t].works <= 1 && s.ledger[t].dones <= s.ledger[t].works
    ensures s.ledger[t].deletes == 1 ==> s.ledger[t].dones == s.ledger[t].works
  {
    ReachableMeansInv(s);
    assert LifeInv(s, t);
    if s.ledger[t].deletes == 0 {
      assert InHandAsRecorded(s, s.ledger[t].worker);
    }
  }

  /** Once the dispatcher has been destroyed, every accepted task has been deleted. */
  lemma NoTaskIsLeftBehind(s: State, t: nat)
    requires Reachable(s) && s.main == Finished && t < |s.ledger|
    ensures s.ledger[t].deletes == 1
    ensures (s.ledger[t].works, s.ledger[t].dones) in {(1, 1), (0, 0)}
  {
    ReachableMeansInv(s);
    assert LifeInv(s, t);
    assert WorkerInv(s.main, s.workers[s.ledger[t].worker], s.ledger[t].worker);
  }

  /** No two workers have the same task in hand. */
  lemma TasksAreNotShared(s: State, i: nat, j: nat)
    requires Reachable(s) && i < |s.workers| && j < |s.workers|
    requires InHand(s.workers[i]).Some? && InHand(s.workers[i]) == InHand(s.workers[j])
    ensures i == j
  {
    ReachableMeansInv(s);
    assert InHandAsRecorded(s, i) && InHandAsRecorded(s, j);
  }

  // ----- Wakeups -----

  /** No wakeup is lost: a parked worker whose mutex is free has no task. */
  lemma NoLostWakeup(s: State, i: nat)
    requires Reachable(s) && i < |s.workers|
    requires s.workers[i].pc == Parked && s.workers[i].owner == Free
    ensures s.workers[i].task.None?
  {
    ReachableMeansInv(s);
    assert WorkerInv(s.main, s.workers[i], i);
  }

  /** The number of its own steps a thread needs before it begins the work on the task it has. */
  function StepsToWork(pc: WorkerPc): (n: nat) {
    match pc
    case Starting => 4
    case LoopHead => 3
    case CheckTask => 2
    case Parked => 2
    case Woken => 2
    case Recheck => 1
    case _ => 0
  }

  /** A worker that has a task it has not begun, and that is not being destroyed. */
  predicate HasWork(s: State, i: nat) {
    && i < |s.workers| && s.workers[i].task.Some? && !Disabled(s.main, i)
    && !s.workers[i].pc.Working? && !s.workers[i].pc.Clearing?
  }

  /** Its thread can step, unless the main thread holds its mutex; then the main thread can. */
  lemma WorkIsNotBlocked(s: State, i: nat)
    requires Reachable(s) && HasWork(s, i)
    ensures Enabled(s, WorkerStep(i)) || (MainHolds(s.main, i) && Enabled(s, MainStep))
  {
    ReachableMeansInv(s);
    assert WorkerInv(s.main, s.workers[i], i);
  }

  /** A step of its own brings it nearer to the work; no other step takes it back. */
  lemma StepTowardsWork(s: State, i: nat, e: Event)
    requires MainInv(s) && HasWork(s, i) && WorkerInv(s.main, s.workers[i], i) && Enabled(s, e)
    ensures var s' := Apply(s, e);
            Disabled(s'.main, i) || s'.workers[i].pc == Working ||
            (HasWork(s', i) &&
             if e == WorkerStep(i) then StepsToWork(s'.workers[i].pc) < StepsToWork(s.workers[i].pc)
             else StepsToWork(s'.workers[i].pc) == StepsToWork(s.workers[i].pc))
  {
  }

  function OwnSteps(events: seq<Event>, i: nat): (n: nat) {
    if events == [] then 0 else (if events[0] == WorkerStep(i) then 1 else 0) + OwnSteps(events[1..], i)
  }

  /** At some point of the run worker `i` is about to do its task's work, or its destructor has begun. */
  ghost predicate BegunOrDestroyed(s: State, events: seq<Event>, i: nat)
    requires IsRun(s, events)
    decreases |events|
  {
    || (i < |s.workers| && s.workers[i].pc == Working) || Disabled(s.main, i)
    || (events != [] && BegunOrDestroyed(Apply(s, events[0]), events[1..], i))
  }

  /** Over any run from there on, whatever the other threads do, the worker begins the work within four steps of
      its own, unless it is destroyed before. */
  lemma {:induction false} TaskIsBegun(s: State, events: seq<Event>, i: nat)
    requires Reachable(s) && IsRun(s, events) && HasWork(s, i)
    ensures StepsToWork(s.workers[i].pc) <= 4
    ensures OwnSteps(events, i) >= StepsToWork(s.workers[i].pc) ==> BegunOrDestroyed(s, events, i)
    decreases |events|
  {
    ReachableMeansInv(s);
    assert WorkerInv(s.main, s.workers[i], i);
    if events != [] {
      var s' := Apply(s, events[0]);
      StepTowardsWork(s, i, events[0]);
      ReachableByStep(s, events[0], Apply(s, events[0]));
      if HasWork(s', i) {
        TaskIsBegun(s', events[1..], i);
      }
    }
  }

  // ----- Shutdown -----

  /** The number of its own steps a thread takes before it exits, once its destructor has sent its signal. */
  function StepsToExit(pc: WorkerPc): (n: nat) {
    match pc
    case Starting => 3
    case Woken => 4
    case Recheck => 3
    case LoopHead => 2
    case Leaving => 1
    case _ => 0
  }

  /** Once its destructor has sent its signal, a thread touches no task any more, and each of its steps brings it
      nearer to its exit; at most four are left. */
  lemma StoppedWorkerExits(s: State, i: nat)
    requires Reachable(s) && i < |s.workers| && Stopped(s.main, i)
    ensures s.workers[i].pc == Exited || StepsToExit(s.workers[i].pc) > 0
    ensures StepsToExit(s.workers[i].pc) <= 4
    ensures Enabled(s, WorkerStep(i)) ==>
              var s' := Apply(s, WorkerStep(i));
              s'.ledger == s.ledger && s'.sem == s.sem && StepsToExit(s'.workers[i].pc) < StepsToExit(s.workers[i].pc)
    ensures s.workers[i].pc != Exited && s.workers[i].owner != Main ==> Enabled(s, WorkerStep(i))
  {
    ReachableMeansInv(s);
    assert WorkerInv(s.main, s.workers[i], i);
  }

  /** No step of another thread puts a stopped worker back or gives it a task, and it stays stopped. */
  lemma OthersLeaveStoppedWorker(s: State, i: nat, e: Event)
    requires Reachable(s) && i < |s.workers| && Stopped(s.main, i)
    requires Enabled(s, e) && e != WorkerStep(i)
    ensures Stopped(Apply(s, e).main, i)
    ensures Apply(s, e).workers[i].pc == s.workers[i].pc && Apply(s, e).workers[i].task.None?
  {
    ReachableMeansInv(s);
    assert WorkerInv(s.main, s.workers[i], i);
  }

  /** Over any run from there on, the thread takes at most four steps. */
  lemma {:induction false} StoppedWorkerTakesFewSteps(s: State, events: seq<Event>, i: nat)
    requires Reachable(s) && IsRun(s, events) && i < |s.workers| && Stopped(s.main, i)
    ensures OwnSteps(events, i) <= StepsToExit(s.workers[i].pc) <= 4
    decreases |events|
  {
    StoppedWorkerExits(s, i);
    if events != [] {
      var s' := Apply(s, events[0]);
      ReachableByStep(s, events[0], Apply(s, events[0]));
      if events[0] != WorkerStep(i) {
        OthersLeaveStoppedWorker(s, i, events[0]);
      }
      StoppedWorkerTakesFewSteps(s', events[1..], i);
    }
  }

  lemma {:induction false} RunOneMore(s: State, events: seq<Event>, e: Event)
    requires IsRun(s, events) && Enabled(After(s, events), e)
    ensures IsRun(s, events + [e]) && After(s, events + [e]) == Apply(After(s, events), e)
    decreases |events|
  {
    if events == [] {
      assert ([] + [e])[1..] == [];
    } else {
      RunOneMore(Apply(s, events[0]), events[1..], e);
      assert (events + [e])[1..] == events[1..] + [e];
    }
  }

  lemma ReachableByStep(s: State, e: Event, s': State)
    requires Reachable(s) && Enabled(s, e) && Apply(s, e) == s'
    ensures Reachable(s')
  {
    var events :| IsRun(INIT, events) && After(INIT, events) == s;
    RunOneMore(INIT, events, e);
  }

  /** While `pthread_join` waits, the thread it waits for can take a step: it never waits in vain. */
  lemma JoinDoesNotHang(s: State)
    requires Reachable(s) && s.main.Joining?
    ensures s.main.i < |s.workers|
    ensures Enabled(s, MainStep) || Enabled(s, WorkerStep(s.main.i))
  {
    ReachableMeansInv(s);
    assert WorkerInv(s.main, s.workers[s.main.i], s.main.i);
  }
}
