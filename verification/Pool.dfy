/** The shared state of the thread pool and, for every thread that touches it, how far that
    thread has got in its code. */
module Pools {
  import opened Configs
  import opened BlockingQueues

  /** Every task object is submitted at most once, so a number can stand for it. */
  type Task = int

  datatype State = Running | Paused | ShuttingDown | ForceShutting | Stopped

  datatype ShutdownOption = WaitAll | Force | WaitFor

  /** workerLoop. From Looking to Stamped and from Uncount to Announce the worker holds
      queue_mutex_. */
  datatype WorkerPc =
    | Absent
    | Top
    | PauseCheck
    | PauseSpin
    | PauseOver
    | WantLock
    | Looking              // evaluating the wait predicate: stopped_ and the queue size
    | SawEmpty             // ... both said no; the exit flag is read last
    | Asleep               // on queue_cv_
    | Checking
    | Taking
    | Dequeuing
    | Got(t: Task)
    | Activated(t: Task)
    | Stamped(t: Task)
    | Executing(t: Task)
    | Reporting(ok: bool)
    | Relocking
    | Uncount
    | Unrun
    | Unactive
    | Announce
    | Exited

  /** One index of workers_, thread_should_exit_ and thread_idle_count_. */
  datatype Slot = Slot(pc: WorkerPc, joinable: bool, exitFlag: bool, idle: nat)

  /** submit, from its running check on. Done is also where a discarded task ends. */
  datatype SubmitPc = Checked | Chosen(policy: QueueFullPolicy) | Pushed | Counted | Done

  /** loadCheck and cleanFinishedThread: whoever holds worker_access_mutex_. */
  datatype ManagerPc =
    | Idle
    | ReadActive
    | ReadPending(active: int)
    | Create
    | JoinOld(i: nat)
    | Respawn(i: nat)
    | ResetIdle(i: nat)
    | ClearFlag(i: nat)
    | Emplace
    | CountThread
    | RecordThread
    | Scan(i: nat)
    | TestIdle(i: nat)
    | Retire(i: nat)
    | Clean(i: nat)

  datatype BalancerPc =
    | Looping
    | AwaitResume
    | AsleepPaused         // on pause_cv_
    | Napping
    | LoadCheck
    | WantLoadCheck
    | InLoadCheck
    | WantClean
    | InClean
    | Gone

  /** The thread inside shutdown, forceStop and stop. */
  datatype ControlPc =
    | Outside
    | WantWait
    | EvalWait             // holding queue_mutex_ in waitForAllTask
    | AsleepWait           // on wait_cv_
    | PollRunning
    | PollPending(running: int)
    | Forcing
    | WantDrain
    | Drain                // from here to DrainFail holding queue_mutex_ in forceStop
    | DrainDequeue
    | DrainGot(t: Task)
    | DrainUncount
    | DrainFail
    | StopBalancer
    | StopWorkers
    | JoinBalancer
    | Join(i: nat)
    | Finish
    | Returned

  datatype Owner = Free | Worker(i: nat) | Controller

  /** What happened so far; the code itself keeps none of this. */
  datatype History = History(
    executed: seq<Task>,
    failures: nat,         // executions that failed
    abandoned: seq<Task>,
    shutdowns: nat,        // shutdown calls that passed the guard
    option: ShutdownOption,
    quiet: bool,           // no submit was in flight when shutdown left Running/Paused
    forced: bool,          // forceStop has stored ForceShutting
    atDrain: seq<Task>,    // the queue when forceStop had locked it for draining
    lateStarts: nat,       // tasks workers took after ForceShutting was stored
    maxThreads: int)       // the largest thread count so far

  datatype Pool = Pool(
    state: State,
    stopped: bool,
    policy: QueueFullPolicy,
    balancerExit: bool,
    q: Queue<Task>,
    pending: int,          // an unsigned counter in the code: it may pass below zero and return
    running: int,
    active: int,
    slots: seq<Slot>,      // one for each possible thread
    size: nat,             // workers_.size()
    threadCount: int,
    created: int,
    destroyed: int,
    peak: int,
    succeeded: int,
    failed: int,
    submits: map<Task, SubmitPc>,   // every submit call that passed its running check
    checkers: nat,                  // loadCheck calls from outside that passed theirs
    lock: Owner,           // queue_mutex_
    manager: ManagerPc,
    balancer: BalancerPc,
    control: ControlPc,
    past: History)

  /** No submit call is between its running check and its return. */
  predicate Quiet(s: Pool) {
    forall t :: t in s.submits ==> s.submits[t] == Done
  }

  function CoreWorkers(c: Config): (slots: seq<Slot>)
    ensures |slots| == c.maxThreads
    ensures forall i :: 0 <= i < |slots| ==> (i < c.coreThreads ==> slots[i] == Slot(Top, true, false, 0))
    ensures forall i :: 0 <= i < |slots| ==> (c.coreThreads <= i ==> slots[i] == Slot(Absent, false, false, 0))
  {
    seq(c.maxThreads, i => if i < c.coreThreads then Slot(Top, true, false, 0)
                           else Slot(Absent, false, false, 0))
  }

  function Initial(c: Config): Pool {
    Pool(
      Running, false, c.policy, false, New(c.maxQueueSize), 0, 0, 0,
      CoreWorkers(c),
      c.coreThreads, c.coreThreads, c.coreThreads, 0, c.coreThreads, 0, 0,
      map[], 0, Free, Idle, if c.enableDynamicThread then Looping else Gone, Outside,
      History([], 0, [], 0, WaitAll, false, false, [], 0, c.coreThreads))
  }
}
