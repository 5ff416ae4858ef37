/** The thread pool as an interleaved step system: one dispatching main thread, any number of worker threads.

    A step is a stretch of one thread's code between two points where another thread can interfere.  The
    semaphore's own lock is held only inside `Wait` and `Signal`, so each of the two is one step. */
module Pools {

  datatype Option<T> = None | Some(value: T)

  /** Where a worker thread stands in its loop. */
  datatype WorkerPc =
    | Starting    // before taking its mutex for the first time
    | LoopHead    // at the loop condition
    | CheckTask   // about to wait, unless a task is there
    | Parked      // waiting for the condition; the mutex is released
    | Woken       // signalled or woken spuriously; the mutex is still to be taken again
    | Recheck     // past the wait, about to look for a task
    | Working     // about to do the task's work
    | Clearing    // the work is done; about to clear `task_`
    | Signalling  // about to report the task done, which signals the semaphore
    | Deleting    // about to delete the task
    | Leaving     // out of the loop, about to release the mutex
    | Exited

  datatype Owner = Free | Thread | Main

  /** A worker: its thread, who holds its mutex, and its fields; `local` is the thread's variable `task`. */
  datatype Worker = Worker(pc: WorkerPc, owner: Owner, enabled: bool, task: Option<nat>, local: Option<nat>)

  /** Where the main thread stands; `i` is the worker it is dealing with. */
  datatype MainPc =
    | Idle
    | Announcing             // AddWorker: the worker is in the list, the semaphore not yet signalled
    | Waiting                // Dispatch: before the semaphore lets it pass
    | Scanning(i: nat)       // Dispatch: about to try worker i
    | Trying(i: nat)         // TryAssign: holds the mutex of worker i
    | Rejecting(i: nat)      // TryAssign: the worker has a task; about to release its mutex
    | Assigning(i: nat)      // TryAssign: the task is set; about to signal the condition
    | Releasing(i: nat)      // TryAssign: about to release the mutex
    | AssertFailed           // Dispatch: no worker took the task
    | Disabling(i: nat)      // destructor: about to clear `enabled_`
    | Locking(i: nat)        // destructor: about to take the mutex
    | Discarding(i: nat)     // destructor: about to delete a task that was never begun
    | Stopping(i: nat)       // destructor: about to signal the condition
    | Unlocking(i: nat)      // destructor: about to release the mutex
    | Joining(i: nat)        // destructor: waiting for the thread to exit
    | Finished

  /** What has been done with an accepted task, and which worker accepted it. */
  datatype Life = Life(worker: nat, works: nat, dones: nat, deletes: nat)

  /** What a try to assign the task met: whether the worker had a task, and who held its mutex. */
  datatype Try = Try(hadTask: bool, holder: Owner)

  datatype State = State(workers: seq<Worker>, sem: nat, main: MainPc, ledger: seq<Life>, tries: seq<Try>,
                         discarded: nat)

  const INIT := State([], 0, Idle, [], [], 0)

  datatype Event =
    | WorkerStep(w: nat)
    | Spurious(w: nat)   // a spurious wakeup
    | AddWorker
    | Dispatch
    | Shutdown
    | MainStep           // the main thread goes on with what it is doing

  // ----- Worker threads -----

  /** The thread holds its own mutex at these points. */
  predicate Holds(pc: WorkerPc) {
    pc.LoopHead? || pc.CheckTask? || pc.Recheck? || pc.Working? || pc.Clearing? || pc.Signalling? || pc.Deleting?
        || pc.Leaving?
  }

  predicate WorkerEnabled(w: Worker) {
    match w.pc
    case Starting => w.owner == Free
    case Woken => w.owner == Free
    case Parked => false
    case Exited => false
    case _ => true
  }

  function AfterWorkerStep(w: Worker): (w': Worker)
    requires WorkerEnabled(w)
  {
    match w.pc
    case Starting => w.(pc := LoopHead, owner := Thread)
    case LoopHead => w.(pc := if w.enabled then CheckTask else Leaving)
    case CheckTask => if w.task.None? then w.(pc := Parked, owner := Free) else w.(pc := Recheck)
    case Woken => w.(pc := Recheck, owner := Thread)
    case Recheck => w.(pc := if w.task.Some? then Working else LoopHead)
    case Working => w.(pc := Clearing)
    case Clearing => w.(pc := Signalling, local := w.task, task := None)
    case Signalling => w.(pc := Deleting)
    case Deleting => w.(pc := LoopHead, local := None)
    case Leaving => w.(pc := Exited, owner := Free)
  }

  /** The task a thread step acts on, and what the step does with it. */
  function LedgerAfter(w: Worker, ledger: seq<Life>): (ledger': seq<Life>) {
    match (w.pc, w.task, w.local)
    case (Working, Some(t), _) =>
      if t < |ledger| then ledger[t := ledger[t].(works := ledger[t].works + 1)] else ledger
    case (Signalling, _, Some(t)) =>
      if t < |ledger| then ledger[t := ledger[t].(dones := ledger[t].dones + 1)] else ledger
    case (Deleting, _, Some(t)) =>
      if t < |ledger| then ledger[t := ledger[t].(deletes := ledger[t].deletes + 1)] else ledger
    case _ => ledger
  }

  /** A signal on the condition wakes the thread if it is parked, and is lost otherwise. */
  function Signalled(w: Worker): (w': Worker) {
    if w.pc == Parked then w.(pc := Woken) else w
  }

  // ----- Steps -----

  predicate Enabled(s: State, e: Event) {
    match e
    case WorkerStep(i) => i < |s.workers| && WorkerEnabled(s.workers[i])
    case Spurious(i) => i < |s.workers| && s.workers[i].pc == Parked
    case AddWorker => s.main == Idle
    case Dispatch => s.main == Idle
    case Shutdown => s.main == Idle
    case MainStep => MainEnabled(s)
  }

  predicate MainEnabled(s: State) {
    match s.main
    case Idle => false
    case AssertFailed => false
    case Finished => false
    case Announcing => true
    case Waiting => s.sem > 0
    case Scanning(_) => true
    case Locking(i) => i < |s.workers| && s.workers[i].owner == Free
    case Joining(i) => i < |s.workers| && s.workers[i].pc == Exited
    case _ => s.main.i < |s.workers|
  }

  function Apply(s: State, e: Event): (s': State)
    requires Enabled(s, e)
  {
    match e
    case WorkerStep(i) =>
      s.(workers := s.workers[i := AfterWorkerStep(s.workers[i])],
         sem := if s.workers[i].pc == Signalling then s.sem + 1 else s.sem,
         ledger := LedgerAfter(s.workers[i], s.ledger))
    case Spurious(i) => s.(workers := s.workers[i := s.workers[i].(pc := Woken)])
    case AddWorker => s.(workers := s.workers + [Worker(Starting, Free, true, None, None)], main := Announcing)
    case Dispatch => s.(main := Waiting)
    case Shutdown => s.(main := if s.workers == [] then Finished else Disabling(|s.workers| - 1))
    case MainStep => AfterMainStep(s)
  }

  function AfterMainStep(s: State): (s': State)
    requires MainEnabled(s)
  {
    match s.main
    case Announcing => s.(main := Idle, sem := s.sem + 1)
    case Waiting => s.(main := Scanning(0), sem := s.sem - 1, tries := [])
    case Scanning(i) =>
      if i >= |s.workers| then s.(main := AssertFailed)
      else
        var w := s.workers[i];
        var s' := s.(tries := s.tries + [Try(w.task.Some?, w.owner)]);
        if w.owner == Free then s'.(main := Trying(i), workers := s.workers[i := w.(owner := Main)])
        else s'.(main := Scanning(i + 1))
    case Trying(i) =>
      if s.workers[i].task.Some? then s.(main := Rejecting(i))
      else s.(main := Assigning(i), workers := s.workers[i := s.workers[i].(task := Some(|s.ledger|))],
              ledger := s.ledger + [Life(i, 0, 0, 0)])
    case Rejecting(i) => s.(main := Scanning(i + 1), workers := s.workers[i := s.workers[i].(owner := Free)])
    case Assigning(i) => s.(main := Releasing(i), workers := s.workers[i := Signalled(s.workers[i])])
    case Releasing(i) => s.(main := Idle, workers := s.workers[i := s.workers[i].(owner := Free)])
    case Disabling(i) => s.(main := Locking(i), workers := s.workers[i := s.workers[i].(enabled := false)])
    case Locking(i) => s.(main := Discarding(i), workers := s.workers[i := s.workers[i].(owner := Main)])
    case Discarding(i) =>
      (match s.workers[i].task
       case None => s.(main := Stopping(i))
       case Some(t) =>
         s.(main := Stopping(i), workers := s.workers[i := s.workers[i].(task := None)], discarded := s.discarded + 1,
            ledger := if t < |s.ledger| then s.ledger[t := s.ledger[t].(deletes := s.ledger[t].deletes + 1)]
                      else s.ledger))
    case Stopping(i) => s.(main := Unlocking(i), workers := s.workers[i := Signalled(s.workers[i])])
    case Unlocking(i) => s.(main := Joining(i), workers := s.workers[i := s.workers[i].(owner := Free)])
    case Joining(i) => s.(main := if i == 0 then Finished else Disabling(i - 1))
  }

  // ----- The invariant -----

  /** The main thread holds the mutex of worker `i`. */
  predicate MainHolds(main: MainPc, i: nat) {
    match main
    case Trying(j) => i == j
    case Rejecting(j) => i == j
    case Assigning(j) => i == j
    case Releasing(j) => i == j
    case Discarding(j) => i == j
    case Stopping(j) => i == j
    case Unlocking(j) => i == j
    case _ => false
  }

  /** The destructor of worker `i` has cleared `enabled_`. */
  predicate Disabled(main: MainPc, i: nat) {
    match main
    case Disabling(j) => i > j
    case Locking(j) => i >= j
    case Discarding(j) => i >= j
    case Stopping(j) => i >= j
    case Unlocking(j) => i >= j
    case Joining(j) => i >= j
    case Finished => true
    case _ => false
  }

  /** The destructor of worker `i` has discarded what was never begun. */
  predicate Discarded(main: MainPc, i: nat) {
    match main
    case Disabling(j) => i > j
    case Locking(j) => i > j
    case Discarding(j) => i > j
    case Stopping(j) => i >= j
    case Unlocking(j) => i >= j
    case Joining(j) => i >= j
    case Finished => true
    case _ => false
  }

  /** The destructor of worker `i` has sent its signal. */
  predicate Stopped(main: MainPc, i: nat) {
    match main
    case Stopping(j) => i > j
    case _ => Discarded(main, i)
  }

  /** The destructor of worker `i` has returned. */
  predicate Joined(main: MainPc, i: nat) {
    match main
    case Disabling(j) => i > j
    case Locking(j) => i > j
    case Discarding(j) => i > j
    case Stopping(j) => i > j
    case Unlocking(j) => i > j
    case Joining(j) => i > j
    case Finished => true
    case _ => false
  }

  ghost predicate WorkerInv(main: MainPc, w: Worker, i: nat) {
    && (w.owner == Thread <==> Holds(w.pc))
    && (w.owner == Main <==> MainHolds(main, i))
    && (w.enabled <==> !Disabled(main, i))
    && (w.local.Some? <==> w.pc.Signalling? || w.pc.Deleting?)
    && (w.pc.Signalling? || w.pc.Deleting? ==> w.task.None?)
    && (w.pc.Working? || w.pc.Clearing? ==> w.task.Some?)
    && (w.pc.Leaving? || w.pc.Exited? ==> !w.enabled)
    && (w.pc.Parked? && w.task.Some? ==> main == Assigning(i))
    && (main == Assigning(i) ==> w.task.Some?)
    && (Discarded(main, i) ==> w.task.None? && w.local.None? && !w.pc.CheckTask?)
    && (Stopped(main, i) ==> !w.pc.Parked?)
    && (Joined(main, i) ==> w.pc.Exited?)
  }

  /** The task a worker has in hand, if any. */
  function InHand(w: Worker): (t: Option<nat>) {
    if w.pc.Signalling? || w.pc.Deleting? then w.local else w.task
  }

  /** What has been done so far with the task in a worker's hand. */
  function Progress(pc: WorkerPc): (p: (nat, nat)) {
    match pc
    case Clearing => (1, 0)
    case Signalling => (1, 0)
    case Deleting => (1, 1)
    case _ => (0, 0)
  }

  ghost predicate LedgerInv(s: State) {
    && (forall i :: 0 <= i < |s.workers| && InHand(s.workers[i]).Some? ==> InHandAsRecorded(s, i))
    && (forall t :: 0 <= t < |s.ledger| ==> LifeInv(s, t))
  }

  ghost predicate InHandAsRecorded(s: State, i: nat)
    requires i < |s.workers| && InHand(s.workers[i]).Some?
  {
    var t := InHand(s.workers[i]).value;
    && t < |s.ledger| && s.ledger[t].worker == i && s.ledger[t].deletes == 0
    && (s.ledger[t].works, s.ledger[t].dones) == Progress(s.workers[i].pc)
  }

  /** A task not yet deleted is in its worker's hand; a deleted one was worked on and reported once, or neither. */
  ghost predicate LifeInv(s: State, t: nat)
    requires t < |s.ledger|
  {
    var life := s.ledger[t];
    && life.worker < |s.workers|
    && (life.deletes == 0 ==> InHand(s.workers[life.worker]) == Some(t))
    && (life.deletes > 0 ==> life.deletes == 1 && (life.works, life.dones) in {(1, 1), (0, 0)})
  }

  // ----- Counting -----

  /** A worker occupies one place of the pool from the moment it has a task until it has signalled. */
  function Load(w: Worker): (n: nat) {
    if w.task.Some? || w.pc.Signalling? then 1 else 0
  }

  function TotalLoad(workers: seq<Worker>): (n: nat) {
    if workers == [] then 0 else TotalLoad(workers[..|workers| - 1]) + Load(workers[|workers| - 1])
  }

  /** The place the main thread holds: past `Wait`, the task not yet assigned. */
  function InDispatch(main: MainPc): (n: nat) {
    if main.Scanning? || main.Trying? || main.Rejecting? || main.AssertFailed? then 1 else 0
  }

  /** The workers whose `AddWorker` has signalled the semaphore. */
  function Announced(s: State): (n: int) {
    if s.main == Announcing then |s.workers| - 1 else |s.workers|
  }

  ghost predicate Conserved(s: State) {
    s.sem + InDispatch(s.main) + TotalLoad(s.workers) + s.discarded == Announced(s)
  }

  lemma {:induction false} LoadAfterUpdate(workers: seq<Worker>, i: nat, w: Worker)
    requires i < |workers|
    ensures TotalLoad(workers[i := w]) == TotalLoad(workers) - Load(workers[i]) + Load(w)
  {
    var n := |workers| - 1;
    if i < n {
      assert workers[i := w][..n] == workers[..n][i := w];
      LoadAfterUpdate(workers[..n], i, w);
    } else {
      assert workers[i := w][..n] == workers[..n];
    }
  }

  /** With less load than workers, some worker has no load. */
  lemma {:induction false} SomeWorkerIsFree(workers: seq<Worker>)
    requires TotalLoad(workers) < |workers|
    ensures exists k :: 0 <= k < |workers| && workers[k].task.None?
  {
    var n := |workers| - 1;
    if Load(workers[n]) == 0 {
      assert workers[n].task.None?;
    } else {
      SomeWorkerIsFree(workers[..n]);
      var k :| 0 <= k < n && workers[..n][k].task.None?;
      assert workers[k].task.None?;
    }
  }

  // ----- The scan -----

  /** The number of workers tried so far, when a scan is under way. */
  function Tried(s: State): (n: Option<nat>) {
    match s.main
    case Scanning(i) => Some(i)
    case Trying(i) => Some(i)
    case Rejecting(i) => Some(i)
    case AssertFailed => Some(|s.workers|)
    case _ => None
  }

  /** A try that failed because the worker's own thread held the mutex of a worker without a task. */
  predicate Unlucky(t: Try) {
    !t.hadTask && t.holder == Thread
  }

  ghost predicate ScanInv(s: State) {
    match Tried(s)
    case None => true
    case Some(n) =>
      && n <= |s.workers| && n <= |s.tries|
      && (forall k :: 0 <= k < n ==> s.tries[k].hadTask || Unlucky(s.tries[k]))
      && (s.main.Trying? ==> n < |s.workers| && n < |s.tries| && s.tries[n].hadTask == s.workers[n].task.Some?)
      && (s.main.Rejecting? ==> n < |s.workers| && n < |s.tries| && s.tries[n].hadTask && s.workers[n].task.Some?)
      && (SomeUnlucky(s, n) || SomeUntriedIsFree(s, n))
  }

  ghost predicate SomeUnlucky(s: State, n: nat)
    requires n <= |s.tries|
  {
    exists k :: 0 <= k < n && Unlucky(s.tries[k])
  }

  ghost predicate SomeUntriedIsFree(s: State, n: nat) {
    exists k :: n <= k < |s.workers| && s.workers[k].task.None?
  }

  ghost predicate MainInv(s: State) {
    match s.main
    case Idle => true
    case Waiting => true
    case AssertFailed => true
    case Finished => true
    case Announcing => s.workers != []
    case Scanning(i) => i <= |s.workers| && |s.tries| == i
    case Trying(i) => i < |s.workers| && |s.tries| == i + 1
    case Rejecting(i) => i < |s.workers| && |s.tries| == i + 1
    case _ => s.main.i < |s.workers|
  }

  /** The destructors have begun. */
  predicate ShuttingDown(main: MainPc) {
    main.Disabling? || main.Locking? || main.Discarding? || main.Stopping? || main.Unlocking? || main.Joining?
        || main.Finished?
  }

  ghost predicate Inv(s: State) {
    && MainInv(s)
    && (s.discarded == 0 || ShuttingDown(s.main))
    && (forall i :: 0 <= i < |s.workers| ==> WorkerInv(s.main, s.workers[i], i))
    && LedgerInv(s)
    && Conserved(s)
    && ScanInv(s)
  }
}
