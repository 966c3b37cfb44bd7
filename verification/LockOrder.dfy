/** The order in which the five mutexes are taken, and who waits for whom, for a mutex or in a
    join: never in a circle. */
module LockOrder {
  import opened Configs
  import opened Pools
  import opened Steps
  import SlotTable
  import opened Locking
  import opened Runs

  /** The manager is whichever thread is inside loadCheck or cleanFinishedThread. */
  datatype Thread =
    | WorkerThread(i: nat)
    | SubmitterThread(t: Task)
    | ManagerThread
    | BalancerThread
    | ControllerThread

  // ----- the order of the mutexes -----

  datatype Mutex = WorkerAccessMutex | QueueMutex | InnerMutex | StatusMutex | StateMutex

  /** worker_access_mutex_ comes first, then queue_mutex_, then the inner mutex of the queue and
      status_mutex_. state_mutex_ is never taken together with another one. */
  function MutexRank(m: Mutex): nat {
    match m
    case WorkerAccessMutex => 0
    case QueueMutex => 1
    case InnerMutex => 2
    case StatusMutex => 2
    case StateMutex => 0
  }

  /** What a thread holds before its next step. */
  function Held(s: Pool, a: Thread): set<Mutex> {
    match a
    case WorkerThread(i) => if s.lock == Worker(i) then {QueueMutex} else {}
    case SubmitterThread(_) => {}
    case ManagerThread => if s.manager != Idle then {WorkerAccessMutex} else {}
    case BalancerThread => {}
    case ControllerThread => if s.lock == Controller then {QueueMutex} else {}
  }

  /** The mutex that the thread locks in its next step, to keep it or just for that step: the
      inner mutex inside size, enqueue and dequeue, status_mutex_ for the statistics. */
  function Wanted(s: Pool, a: Thread): set<Mutex> {
    match a
    case WorkerThread(i) => if i < |s.slots| then WantedByWorker(s.slots[i].pc) else {}
    case SubmitterThread(t) =>
      if t !in s.submits then {}
      else if s.submits[t].Chosen? then {InnerMutex}
      else if s.submits[t].Counted? then {QueueMutex}
      else {}
    case ManagerThread =>
      if s.manager.Retire? then {QueueMutex}
      else if s.manager.JoinOld? || s.manager.Clean? || s.manager.RecordThread? then {StatusMutex}
      else {}
    case BalancerThread =>
      if s.balancer.WantLoadCheck? || s.balancer.WantClean? then {WorkerAccessMutex}
      else if s.balancer.AwaitResume? || s.balancer.AsleepPaused? then {StateMutex}
      else {}
    case ControllerThread => WantedByController(s.control)
  }

  function WantedByWorker(pc: WorkerPc): set<Mutex> {
    match pc
    case WantLock => {QueueMutex}
    case Relocking => {QueueMutex}
    case Looking => {InnerMutex}
    case Checking => {InnerMutex}
    case Taking => {InnerMutex}
    case Dequeuing => {InnerMutex}
    case Reporting(_) => {StatusMutex}
    case _ => {}
  }

  function WantedByController(pc: ControlPc): set<Mutex> {
    match pc
    case Outside => {StateMutex}
    case Forcing => {StateMutex}
    case StopBalancer => {StateMutex}
    case Finish => {StateMutex}
    case WantWait => {QueueMutex}
    case WantDrain => {QueueMutex}
    case StopWorkers => {QueueMutex}
    case Drain => {InnerMutex}
    case DrainDequeue => {InnerMutex}
    case DrainFail => {StatusMutex}
    case _ => {}
  }

  lemma WantedAbove(s: Pool, a: Thread, held: Mutex, wanted: Mutex)
    requires Locked(s) && held in Held(s, a) && wanted in Wanted(s, a)
    ensures MutexRank(held) < MutexRank(wanted) && wanted != StateMutex && held != StateMutex
  {
    if a.WorkerThread? && a.i < |s.slots| {
      assert LockOk(s, a.i);
    }
  }

  /** In every run each thread locks only mutexes that rank above all it holds, and state_mutex_
      only when it holds none. */
  lemma LockRanking(c: Config, actions: seq<Action>, a: Thread, held: Mutex, wanted: Mutex)
    requires ValidateConfigBasic(c).Accepted?
    requires held in Held(After(c, actions), a) && wanted in Wanted(After(c, actions), a)
    ensures MutexRank(held) < MutexRank(wanted) && wanted != StateMutex && held != StateMutex
  {
    AfterInv(c, actions);
    WantedAbove(After(c, actions), a, held, wanted);
  }

  datatype Wait = Wait(thread: Thread, wanted: Mutex)

  /** Each thread of the chain is stuck in its next step for a mutex, and the next thread, which
      is stuck as well, holds it. */
  ghost predicate MutexChain(s: Pool, chain: seq<Wait>) {
    && (forall k :: 0 <= k < |chain| ==> chain[k].wanted in Wanted(s, chain[k].thread))
    && (forall k :: 0 < k < |chain| ==> chain[k - 1].wanted in Held(s, chain[k].thread))
  }

  lemma {:induction false} ChainAscends(s: Pool, chain: seq<Wait>)
    requires Locked(s) && MutexChain(s, chain) && |chain| > 0
    ensures MutexRank(chain[0].wanted) + |chain| - 1 <= MutexRank(chain[|chain| - 1].wanted)
  {
    var n := |chain| - 1;
    if n > 0 {
      assert MutexChain(s, chain[..n]);
      ChainAscends(s, chain[..n]);
      WantedAbove(s, chain[n].thread, chain[n - 1].wanted, chain[n].wanted);
    }
  }

  /** In no run do threads wait for each other's mutexes in a circle, and at most three wait one
      for the other, with all five mutexes counted. */
  lemma NoMutexCycle(c: Config, actions: seq<Action>, chain: seq<Wait>)
    requires ValidateConfigBasic(c).Accepted?
    requires MutexChain(After(c, actions), chain) && |chain| > 0
    ensures |chain| <= 3 && chain[|chain| - 1].wanted !in Held(After(c, actions), chain[0].thread)
  {
    var s := After(c, actions);
    AfterInv(c, actions);
    ChainAscends(s, chain);
    if chain[|chain| - 1].wanted in Held(s, chain[0].thread) {
      WantedAbove(s, chain[0].thread, chain[|chain| - 1].wanted, chain[0].wanted);
    }
  }

  // ----- waiting for other threads, joins included -----

  predicate Owns(s: Pool, b: Thread) {
    s.lock == (match b
               case WorkerThread(i) => Worker(i)
               case ControllerThread => Controller
               case _ => Free)
    && s.lock != Free
  }

  /** Thread a is stopped until thread b lets a mutex go, or ends. */
  predicate WaitsFor(s: Pool, a: Thread, b: Thread) {
    match a
    case WorkerThread(i) =>
      i < |s.slots| && (s.slots[i].pc == WantLock || s.slots[i].pc == Relocking) && Owns(s, b)
    case SubmitterThread(t) => t in s.submits && s.submits[t] == Counted && Owns(s, b)
    case ManagerThread =>
      || (s.manager.Retire? && Owns(s, b))
      || (s.manager.JoinOld? && b == WorkerThread(s.manager.i) && !HasExited(s, s.manager.i))
      || (s.manager.Clean? && s.manager.i < s.size && MustJoin(s, s.manager.i)
          && b == WorkerThread(s.manager.i) && !HasExited(s, s.manager.i))
    case BalancerThread =>
      && (s.balancer.WantLoadCheck? || s.balancer.WantClean? || s.balancer.InLoadCheck? || s.balancer.InClean?)
      && s.manager != Idle && b == ManagerThread
    case ControllerThread =>
      || ((s.control.WantWait? || s.control.WantDrain? || s.control.StopWorkers?) && Owns(s, b))
      || (s.control.JoinBalancer? && b == BalancerThread && s.balancer != Gone)
      || (s.control.JoinBalancer? && b == ManagerThread && s.manager != Idle)
      || (s.control.Join? && s.control.i < s.size && b == WorkerThread(s.control.i)
          && s.control.i < |s.slots| && s.slots[s.control.i].joinable && !HasExited(s, s.control.i))
  }

  /** How far from the bottom a thread can be waiting. */
  function Depth(s: Pool, a: Thread): nat {
    match a
    case WorkerThread(i) => if s.lock == Worker(i) then 0 else 1
    case SubmitterThread(_) => 1
    case ManagerThread => 2
    case BalancerThread => 3
    case ControllerThread => if s.lock == Controller then 0 else 4
  }

  /** Waiting only ever goes down, and the owner of queue_mutex_ waits for nobody. */
  lemma WaitsDescend(s: Pool, a: Thread, b: Thread)
    requires Locked(s) && WaitsFor(s, a, b)
    ensures Depth(s, b) < Depth(s, a)
  {
    if a.WorkerThread? {
      assert LockOk(s, a.i);
    }
  }

  ghost predicate WaitChain(s: Pool, chain: seq<Thread>) {
    forall k :: 0 <= k < |chain| - 1 ==> WaitsFor(s, chain[k], chain[k + 1])
  }

  lemma {:induction false} ChainDescends(s: Pool, chain: seq<Thread>)
    requires Locked(s) && WaitChain(s, chain) && |chain| >= 2
    ensures Depth(s, chain[|chain| - 1]) + |chain| - 1 <= Depth(s, chain[0])
  {
    WaitsDescend(s, chain[0], chain[1]);
    if |chain| > 2 {
      var rest := chain[1..];
      forall k | 0 <= k < |rest| - 1 ensures WaitsFor(s, rest[k], rest[k + 1]) {
        assert WaitsFor(s, chain[k + 1], chain[k + 2]);
      }
      ChainDescends(s, rest);
    }
  }

  /** In no run is there a circle of threads each waiting for the next, and no chain of
      waiting threads is longer than controller, balancer, manager, worker, owner. */
  lemma NoWaitCycle(c: Config, actions: seq<Action>, chain: seq<Thread>)
    requires ValidateConfigBasic(c).Accepted?
    requires WaitChain(After(c, actions), chain) && |chain| >= 2
    ensures chain[0] != chain[|chain| - 1] && |chain| <= 5
  {
    AfterInv(c, actions);
    ChainDescends(After(c, actions), chain);
  }

  // ----- a blocked thread is a waiting thread -----

  function OwnerOf(s: Pool): Thread {
    if s.lock.Worker? then WorkerThread(s.lock.i) else ControllerThread
  }

  lemma BlockedWorker(s: Pool, i: nat)
    requires Locked(s) && i < |s.slots| && NextWorkerPc(s, s.slots[i], false) == s.slots[i].pc
    requires s.slots[i].pc !in {Exited, Absent, Asleep, PauseSpin}
    ensures WaitsFor(s, WorkerThread(i), OwnerOf(s))
  {
    assert LockOk(s, i);
  }

  /** A worker that cannot move, and is not asleep on queue_cv_ nor held up by a pause, waits for
      the owner of queue_mutex_. */
  lemma BlockedWorkerWaits(c: Config, actions: seq<Action>, i: nat)
    requires ValidateConfigBasic(c).Accepted? && i < c.maxThreads
    requires
      var s := After(c, actions);
      NextWorkerPc(s, s.slots[i], false) == s.slots[i].pc && s.slots[i].pc !in {Exited, Absent, Asleep, PauseSpin}
    ensures WaitsFor(After(c, actions), WorkerThread(i), OwnerOf(After(c, actions)))
  {
    AfterInv(c, actions);
    BlockedWorker(After(c, actions), i);
  }

  lemma SleeperOrNone(slots: seq<Slot>) returns (wake: nat)
    ensures IsAsleep(slots, wake) || NoneAsleep(slots)
  {
    wake := 0;
    if i :| 0 <= i < |slots| && IsAsleep(slots, i) {
      wake := i;
    }
  }

  /** A submit call that has pushed its task and cannot go on, whichever sleeper notify_one may
      pick, waits for the owner of queue_mutex_. One that has not pushed waits for room only. */
  lemma BlockedSubmitterWaits(c: Config, actions: seq<Action>, t: Task)
    requires ValidateConfigBasic(c).Accepted?
    requires
      var s := After(c, actions);
      t in s.submits && s.submits[t] != Done && forall wake :: NextSubmitPc(s, s.submits[t], wake) == s.submits[t]
    ensures
      var s := After(c, actions);
      if s.submits[t].Chosen? then s.submits[t] == Chosen(Blocking) && s.q.ring.Full()
      else WaitsFor(s, SubmitterThread(t), OwnerOf(s))
  {
    AfterInv(c, actions);
    SubmitterBlocked(After(c, actions), t);
  }

  lemma SubmitterBlocked(s: Pool, t: Task)
    requires t in s.submits && s.submits[t] != Done
    requires forall wake :: NextSubmitPc(s, s.submits[t], wake) == s.submits[t]
    ensures if s.submits[t].Chosen? then s.submits[t] == Chosen(Blocking) && s.q.ring.Full()
            else WaitsFor(s, SubmitterThread(t), OwnerOf(s))
  {
    var wake := SleeperOrNone(s.slots);
    assert NextSubmitPc(s, s.submits[t], wake) == s.submits[t];
  }

  lemma ManagerBlocked(c: Config, s: Pool, choice: bool) returns (b: Thread)
    requires SlotTable.Table(c, s) && NextManagerPc(c, s, choice) == s.manager && s.manager != Idle
    ensures WaitsFor(s, ManagerThread, b)
  {
    b := if s.manager.Retire? then OwnerOf(s)
         else if s.manager.JoinOld? || s.manager.Clean? then WorkerThread(s.manager.i)
         else ManagerThread;
  }

  /** Whoever holds worker_access_mutex_ and cannot move waits for the owner of queue_mutex_ or
      for a worker to end. */
  lemma BlockedManagerWaits(c: Config, actions: seq<Action>, choice: bool) returns (b: Thread)
    requires ValidateConfigBasic(c).Accepted?
    requires
      var s := After(c, actions);
      NextManagerPc(c, s, choice) == s.manager && s.manager != Idle
    ensures WaitsFor(After(c, actions), ManagerThread, b)
  {
    AfterInv(c, actions);
    b := ManagerBlocked(c, After(c, actions), choice);
  }

  lemma ControllerBlocked(c: Config, s: Pool) returns (b: Thread)
    requires Shaped(c, s) && Locked(s) && NextControlPc(s, false) == s.control
    requires s.control !in {Outside, Returned, AsleepWait}
    ensures WaitsFor(s, ControllerThread, b)
  {
    b := if s.control.WantWait? || s.control.WantDrain? || s.control.StopWorkers? then OwnerOf(s)
         else if s.control.JoinBalancer? then (if s.balancer != Gone then BalancerThread else ManagerThread)
         else if s.control.Join? then WorkerThread(s.control.i)
         else ControllerThread;
  }

  /** The thread inside shutdown that cannot move, and does not sleep on wait_cv_, waits for the
      owner of queue_mutex_ or for a thread to end. */
  lemma BlockedControllerWaits(c: Config, actions: seq<Action>) returns (b: Thread)
    requires ValidateConfigBasic(c).Accepted?
    requires
      var s := After(c, actions);
      NextControlPc(s, false) == s.control && s.control !in {Outside, Returned, AsleepWait}
    ensures WaitsFor(After(c, actions), ControllerThread, b)
  {
    AfterInv(c, actions);
    b := ControllerBlocked(c, After(c, actions));
  }

  lemma BalancerBlocked(c: Config, s: Pool)
    requires SlotTable.Table(c, s) && BalancerStep(s, false) == s
    requires s.balancer != Gone && s.balancer != AsleepPaused
    ensures WaitsFor(s, BalancerThread, ManagerThread)
  {
  }

  /** The balancer stops only for whoever holds worker_access_mutex_, or on pause_cv_. */
  lemma BlockedBalancerWaits(c: Config, actions: seq<Action>)
    requires ValidateConfigBasic(c).Accepted?
    requires
      var s := After(c, actions);
      BalancerStep(s, false) == s && s.balancer != Gone && s.balancer != AsleepPaused
    ensures WaitsFor(After(c, actions), BalancerThread, ManagerThread)
  {
    AfterInv(c, actions);
    BalancerBlocked(c, After(c, actions));
  }
}
