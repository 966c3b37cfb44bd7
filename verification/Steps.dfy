/** One atomic step of each thread. A step that a thread cannot take yet leaves the pool as
    it is, so a blocked thread is one whose step changes nothing. */
module Steps {
  import opened Configs
  import opened Pools

  ghost predicate Shaped(c: Config, s: Pool) {
    && s.q.Valid()
    && s.q.ring.capacity == c.maxQueueSize
    && |s.slots| == c.maxThreads
    && c.coreThreads <= s.size <= c.maxThreads
  }

  // ----- workerLoop -----

  /** The positions at which a worker holds queue_mutex_. */
  predicate Holds(pc: WorkerPc) {
    pc.Looking? || pc.SawEmpty? || pc.Checking? || pc.Taking? || pc.Dequeuing? || pc.Got?
    || pc.Activated? || pc.Stamped? || pc.Uncount? || pc.Unrun? || pc.Unactive? || pc.Announce?
  }

  /** Where a worker goes next; its own position again means that it cannot move yet.
      `choice` wakes a sleeper spuriously and says whether a task succeeds. */
  function NextWorkerPc(s: Pool, w: Slot, choice: bool): WorkerPc {
    match w.pc
    case Absent => Absent
    case Top => if w.exitFlag then Exited else PauseCheck
    case PauseCheck => if s.state == Paused then PauseSpin else WantLock
    case PauseSpin => if s.state == Paused && !s.stopped then PauseSpin else PauseOver
    case PauseOver => if s.stopped then Exited else WantLock
    case WantLock => if s.lock == Free then Looking else WantLock
    case Looking => if s.stopped || s.q.ring.items != [] then Checking else SawEmpty
    case SawEmpty => if w.exitFlag then Checking else Asleep
    case Asleep => if choice then WantLock else Asleep
    case Checking =>
      if s.state == ForceShutting || (s.stopped && s.q.ring.items == []) then Exited else Taking
    case Taking => if s.q.ring.items != [] then Dequeuing else Top
    case Dequeuing => if s.q.ring.items != [] then Got(s.q.ring.items[0]) else Dequeuing
    case Got(t) => Activated(t)
    case Activated(t) => Stamped(t)
    case Stamped(t) => Executing(t)
    case Executing(t) => Reporting(choice)
    case Reporting(_) => Relocking
    case Relocking => if s.lock == Free then Uncount else Relocking
    case Uncount => Unrun
    case Unrun => Unactive
    case Unactive => Announce
    case Announce => Top
    case Exited => Exited
  }

  /** What else changes as the worker leaves its position for `pc`. */
  function WorkerMoves(s: Pool, i: nat, pc: WorkerPc): Pool
    requires i < |s.slots| && s.q.Valid()
  {
    var w := s.slots[i];
    s.(slots := s.slots[i := Slot(pc, w.joinable, w.exitFlag,
                                  if w.pc.Activated? then 0 else w.idle)],
       lock := if Holds(pc) then Worker(i) else if Holds(w.pc) then Free else s.lock,
       q := if w.pc.Dequeuing? then s.q.Dequeue() else s.q,
       active := s.active + (if w.pc.Got? then 1 else 0) - (if w.pc.Unactive? then 1 else 0),
       running := s.running + (if w.pc.Stamped? then 1 else 0) - (if w.pc.Unrun? then 1 else 0),
       pending := s.pending - (if w.pc.Uncount? then 1 else 0),
       succeeded := s.succeeded + (if w.pc.Reporting? && w.pc.ok then 1 else 0),
       failed := s.failed + (if w.pc.Reporting? && !w.pc.ok then 1 else 0),
       control := if w.pc.Announce? && s.control == AsleepWait then WantWait else s.control,
       past := s.past.(
         executed := if w.pc.Executing? then s.past.executed + [w.pc.t] else s.past.executed,
         failures := s.past.failures + (if w.pc.Executing? && pc == Reporting(false) then 1 else 0),
         lateStarts := s.past.lateStarts
                       + (if w.pc.Dequeuing? && s.state == ForceShutting then 1 else 0)))
  }

  function WorkerStep(s: Pool, i: nat, choice: bool): Pool
    requires i < |s.slots| && s.q.Valid()
  {
    var pc := NextWorkerPc(s, s.slots[i], choice);
    if pc == s.slots[i].pc then s else WorkerMoves(s, i, pc)
  }

  // ----- queue_cv_ -----

  predicate IsAsleep(slots: seq<Slot>, i: nat) {
    i < |slots| && slots[i].pc == Asleep
  }

  predicate NoneAsleep(slots: seq<Slot>) {
    forall i | 0 <= i < |slots| :: !IsAsleep(slots, i)
  }

  /** notify_all: nobody is left asleep, whoever was awake is left alone, and a sleeper changes
      nothing but its position. */
  function WakeAll(slots: seq<Slot>): (woken: seq<Slot>)
    ensures |woken| == |slots| && NoneAsleep(woken)
    ensures forall i | 0 <= i < |slots| :: !IsAsleep(slots, i) ==> woken[i] == slots[i]
    ensures forall i | 0 <= i < |slots| :: woken[i] == slots[i].(pc := woken[i].pc)
  {
    seq(|slots|, i requires 0 <= i < |slots| =>
      if IsAsleep(slots, i) then slots[i].(pc := WantLock) else slots[i])
  }

  // ----- submit -----

  /** Outside the running state submit throws. */
  function SubmitBegins(s: Pool, t: Task): Pool {
    if s.state != Running || t in s.submits then s else s.(submits := s.submits[t := Checked])
  }

  /** `wake` is the sleeper that notify_one picks; it must pick one if there is one. */
  function NextSubmitPc(s: Pool, pc: SubmitPc, wake: nat): SubmitPc {
    match pc
    case Checked => Chosen(s.policy)
    case Chosen(policy) =>
      if !s.q.ring.Full() || policy == Overwrite then Pushed
      else if policy == Discard then Done
      else pc
    case Pushed => Counted
    case Counted =>
      if s.lock == Free && (IsAsleep(s.slots, wake) || NoneAsleep(s.slots)) then Done else Counted
    case Done => Done
  }

  function SubmitMoves(s: Pool, t: Task, pc: SubmitPc, wake: nat): Pool
    requires t in s.submits && s.q.Valid()
  {
    var from := s.submits[t];
    s.(submits := s.submits[t := pc],
       q := if !from.Chosen? then s.q
            else if pc.Pushed? then s.q.EnqueueNoWait(t)
            else s.q.EnqueueIfNotFull(t),
       pending := s.pending + (if from.Pushed? then 1 else 0),
       slots := if from.Counted? && IsAsleep(s.slots, wake)
                then s.slots[wake := s.slots[wake].(pc := WantLock)] else s.slots)
  }

  function SubmitStep(s: Pool, t: Task, wake: nat): Pool
    requires s.q.Valid()
  {
    if t !in s.submits then s
    else
      var pc := NextSubmitPc(s, s.submits[t], wake);
      if pc == s.submits[t] then s else SubmitMoves(s, t, pc, wake)
  }

  // ----- loadCheck, tryCreateNewThread, tryRemoveIdleThread, cleanFinishedThread -----

  function LoadFactor(active: int, threads: int): real {
    if threads == 0 then 0.0 else active as real / threads as real
  }

  const WORD: int := 0x1_0000_0000_0000_0000

  /** What an unsigned 64-bit read of the counter returns. */
  function Unsigned(n: int): (r: nat)
    ensures r < WORD
    ensures 0 <= n < WORD ==> r == n
    ensures -WORD <= n < 0 ==> r == n + WORD
  {
    n % WORD
  }

  predicate ShouldExpand(c: Config, active: int, threads: int, pending: int) {
    && threads < c.maxThreads
    && ( || LoadFactor(active, threads) >= c.expandFactor
         || Unsigned(pending) >= c.taskLimit
         || (threads > 0 && Unsigned(pending) as real / threads as real > c.avgTaskThreshold))
  }

  predicate ShouldShrink(c: Config, active: int, threads: int) {
    threads > c.coreThreads && LoadFactor(active, threads) < c.removeFactor
  }

  /** The first flagged index from i on, or the end of the workers. */
  function FirstFlagged(slots: seq<Slot>, i: nat, size: nat): (k: nat)
    requires i <= size <= |slots|
    ensures i <= k <= size
    ensures k < size ==> slots[k].exitFlag
    ensures forall j :: i <= j < k ==> !slots[j].exitFlag
    decreases size - i
  {
    if i == size || slots[i].exitFlag then i else FirstFlagged(slots, i + 1, size)
  }

  /** The index tryCreateNewThread settles on: a slot to reuse, or a new one at the end. */
  function AfterCreate(c: Config, s: Pool): ManagerPc
    requires Shaped(c, s)
  {
    var i := FirstFlagged(s.slots, c.coreThreads, s.size);
    if s.stopped || i >= c.maxThreads then Idle
    else if i == s.size then Emplace
    else if s.slots[i].joinable then JoinOld(i)
    else Respawn(i)
  }

  predicate HasExited(s: Pool, i: nat) {
    i < |s.slots| && s.slots[i].pc == Exited
  }

  /** cleanFinishedThread joins the threads of flagged slots. */
  predicate MustJoin(s: Pool, i: nat) {
    i < |s.slots| && s.slots[i].exitFlag && s.slots[i].joinable
  }

  /** `choice` is whether std::thread starts rather than throws in the creating steps, and
      whether the worker has been idle for the threshold in the scanning step. */
  function NextManagerPc(c: Config, s: Pool, choice: bool): ManagerPc
    requires Shaped(c, s)
  {
    match s.manager
    case Idle => Idle
    case ReadActive => ReadPending(s.active)
    case ReadPending(active) =>
      if ShouldExpand(c, active, s.threadCount, s.pending) then Create
      else if ShouldShrink(c, active, s.threadCount) then Scan(c.coreThreads)
      else Idle
    case Create => AfterCreate(c, s)
    case JoinOld(i) => if HasExited(s, i) then Respawn(i) else JoinOld(i)
    case Respawn(i) => if choice then ResetIdle(i) else Idle
    case ResetIdle(i) => ClearFlag(i)
    case ClearFlag(_) => CountThread
    case Emplace => if choice then CountThread else Idle
    case CountThread => RecordThread
    case RecordThread => Idle
    case Scan(i) =>
      if i >= s.size then Idle else if s.slots[i].exitFlag then Scan(i + 1) else TestIdle(i)
    case TestIdle(i) =>
      if i < |s.slots| && s.slots[i].idle >= c.consecutiveIdleCount then Retire(i) else Scan(i + 1)
    case Retire(i) => if s.lock == Free then Idle else Retire(i)
    case Clean(i) =>
      if i >= s.size then Idle
      else if MustJoin(s, i) && !HasExited(s, i) then Clean(i)
      else Clean(i + 1)
  }

  /** The slot the manager is working on, if any. */
  function Target(s: Pool): nat {
    match s.manager
    case JoinOld(i) => i
    case Respawn(i) => i
    case ResetIdle(i) => i
    case ClearFlag(i) => i
    case Emplace => s.size
    case Scan(i) => i
    case Retire(i) => i
    case Clean(i) => i
    case _ => |s.slots|
  }

  predicate StartsThread(from: ManagerPc, to: ManagerPc) {
    (from.Respawn? && to.ResetIdle?) || (from.Emplace? && to.CountThread?)
  }

  predicate JoinsThread(s: Pool) {
    s.manager.JoinOld? || (s.manager.Clean? && s.manager.i < s.size && MustJoin(s, s.manager.i))
  }

  function ManagedSlot(s: Pool, w: Slot, pc: ManagerPc, choice: bool): Slot {
    Slot(if StartsThread(s.manager, pc) then Top else w.pc,
         StartsThread(s.manager, pc) || (w.joinable && !JoinsThread(s)),
         if s.manager.ClearFlag? then false else s.manager.Retire? || w.exitFlag,
         if s.manager.ResetIdle? then 0 else if pc.TestIdle? && choice then w.idle + 1 else w.idle)
  }

  function ManagedSlots(s: Pool, pc: ManagerPc, choice: bool): seq<Slot> {
    var k := Target(s);
    var slots := if k < |s.slots| then s.slots[k := ManagedSlot(s, s.slots[k], pc, choice)] else s.slots;
    if s.manager.Retire? then WakeAll(slots) else slots
  }

  function Larger(m: int, n: int): int {
    if m < n then n else m
  }

  function ManagerMoves(s: Pool, pc: ManagerPc, choice: bool): Pool {
    var joins := JoinsThread(s);
    s.(slots := ManagedSlots(s, pc, choice),
       size := if s.manager.Emplace? && pc.CountThread? then s.size + 1 else s.size,
       threadCount := s.threadCount + (if s.manager.CountThread? then 1 else 0) - (if joins then 1 else 0),
       created := s.created + (if s.manager.RecordThread? then 1 else 0),
       destroyed := s.destroyed + (if joins then 1 else 0),
       peak := if s.manager.RecordThread? then Larger(s.peak, s.threadCount) else s.peak,
       manager := pc,
       balancer := if pc.Idle? && s.balancer.InLoadCheck? then WantClean
                   else if pc.Idle? && s.balancer.InClean? then Looping
                   else s.balancer,
       past := s.past.(maxThreads := if s.manager.CountThread?
                                     then Larger(s.past.maxThreads, s.threadCount + 1)
                                     else s.past.maxThreads))
  }

  function ManagerStep(c: Config, s: Pool, choice: bool): Pool
    requires Shaped(c, s)
  {
    var pc := NextManagerPc(c, s, choice);
    if pc == s.manager then s else ManagerMoves(s, pc, choice)
  }

  /** Whether stop has already joined the balancer: from then on nobody checks the load. */
  predicate BalancerJoined(control: ControlPc) {
    control.Join? || control.Finish? || control.Returned?
  }

  /** loadCheck called from outside: the running test, which may be stale by the time the call
      gets the mutex. */
  function CallLoadCheck(s: Pool): Pool {
    if s.state != Running then s else s.(checkers := s.checkers + 1)
  }

  function EnterLoadCheck(s: Pool): Pool {
    if s.checkers == 0 || s.manager != Idle || BalancerJoined(s.control) then s
    else s.(checkers := s.checkers - 1, manager := ReadActive)
  }

  // ----- loadBalancerLoop -----

  function BalancerStep(s: Pool, wakes: bool): Pool {
    match s.balancer
    case Looping => s.(balancer := if s.balancerExit then Gone else AwaitResume)
    case AwaitResume =>
      if s.state == Paused && !s.balancerExit then s.(balancer := AsleepPaused)
      else if s.state != Running then s.(balancer := Gone)
      else s.(balancer := Napping)
    case AsleepPaused => if wakes then s.(balancer := AwaitResume) else s
    case Napping => s.(balancer := if s.balancerExit then Gone else LoadCheck)
    case LoadCheck => s.(balancer := if s.state == Running then WantLoadCheck else WantClean)
    case WantLoadCheck =>
      if s.manager == Idle then s.(manager := ReadActive, balancer := InLoadCheck) else s
    case WantClean =>
      if s.manager == Idle then s.(manager := Clean(0), balancer := InClean) else s
    case _ => s
  }

  // ----- pause, resume, shutdown, forceStop, stop -----

  function Pause(s: Pool): Pool {
    if s.state != Running then s else s.(state := Paused)
  }

  function WakeBalancer(b: BalancerPc): BalancerPc {
    if b == AsleepPaused then AwaitResume else b
  }

  function Resume(s: Pool): Pool {
    s.(state := if s.state == Paused then Running else s.state, balancer := WakeBalancer(s.balancer))
  }

  /** A second shutdown returns at once. */
  function ShutdownBegins(s: Pool, option: ShutdownOption): Pool {
    if s.control != Outside || (s.state != Running && s.state != Paused) then s
    else
      s.(state := ShuttingDown,
         control := match option
                    case WaitAll => WantWait
                    case Force => Forcing
                    case WaitFor => PollRunning,
         past := s.past.(shutdowns := s.past.shutdowns + 1, option := option,
                         quiet := Quiet(s)))
  }

  function StopBegins(s: Pool): Pool {
    if s.control != Outside then s else s.(control := StopBalancer)
  }

  /** The positions at which the controlling thread holds queue_mutex_. */
  predicate ControlHolds(pc: ControlPc) {
    pc.EvalWait? || pc.Drain? || pc.DrainDequeue? || pc.DrainGot? || pc.DrainUncount? || pc.DrainFail?
  }

  /** waitForAllTask, waitForRunningTask, forceStop and stop. `choice` wakes the waiter
      spuriously and lets the time limit pass. */
  function NextControlPc(s: Pool, choice: bool): ControlPc
    requires s.size <= |s.slots|
  {
    match s.control
    case Outside => Outside
    case WantWait => if s.lock == Free then EvalWait else WantWait
    case EvalWait => if s.pending == 0 then StopBalancer else AsleepWait
    case AsleepWait => if choice then WantWait else AsleepWait
    case PollRunning => PollPending(s.running)
    case PollPending(running) =>
      if running == 0 && s.pending == 0 then StopBalancer else if choice then Forcing else PollRunning
    case Forcing => if s.state == ForceShutting || s.state == Stopped then Returned else WantDrain
    case WantDrain => if s.lock == Free then Drain else WantDrain
    case Drain => if s.q.ring.items != [] then DrainDequeue else StopBalancer
    case DrainDequeue => if s.q.ring.items != [] then DrainGot(s.q.ring.items[0]) else DrainDequeue
    case DrainGot(_) => DrainUncount
    case DrainUncount => DrainFail
    case DrainFail => Drain
    case StopBalancer => StopWorkers
    case StopWorkers => if s.lock == Free then JoinBalancer else StopWorkers
    case JoinBalancer => if s.balancer == Gone && s.manager == Idle then Join(0) else JoinBalancer
    case Join(i) =>
      if i >= s.size then Finish
      else if s.slots[i].joinable && s.slots[i].pc != Exited then Join(i)
      else Join(i + 1)
    case Finish => Returned
    case Returned => Returned
  }

  function ControlMoves(s: Pool, pc: ControlPc): Pool
    requires s.q.Valid() && s.size <= |s.slots|
  {
    s.(state := if s.control.Forcing? && pc.WantDrain? then ForceShutting
                else if s.control.Finish? then Stopped
                else s.state,
       stopped := s.stopped || s.control.StopWorkers?,
       balancerExit := s.balancerExit || s.control.StopBalancer?,
       q := if s.control.DrainDequeue? then s.q.Dequeue() else s.q,
       pending := s.pending - (if s.control.DrainUncount? then 1 else 0),
       failed := s.failed + (if s.control.DrainFail? then 1 else 0),
       slots := if s.control.StopWorkers? then WakeAll(s.slots)
                else if s.control.Join? && s.control.i < s.size
                then s.slots[s.control.i := s.slots[s.control.i].(joinable := false)]
                else s.slots,
       lock := if ControlHolds(pc) then Controller else if ControlHolds(s.control) then Free else s.lock,
       balancer := if s.control.StopBalancer? then WakeBalancer(s.balancer) else s.balancer,
       control := pc,
       past := s.past.(abandoned := if s.control.DrainGot? then s.past.abandoned + [s.control.t]
                                    else s.past.abandoned,
                       forced := s.past.forced || (s.control.Forcing? && pc.WantDrain?),
                       atDrain := if s.control.WantDrain? then s.q.ring.items else s.past.atDrain))
  }

  function ControlStep(s: Pool, choice: bool): Pool
    requires s.q.Valid() && s.size <= |s.slots|
  {
    var pc := NextControlPc(s, choice);
    if pc == s.control then s else ControlMoves(s, pc)
  }

  // ----- the whole pool -----

  datatype Action =
    | Work(i: nat, choice: bool)
    | BeginSubmit(t: Task)
    | ContinueSubmit(t: Task, wake: nat)
    | Manage(choice: bool)
    | CheckLoad
    | EnterCheck
    | Balance(wakes: bool)
    | PausePool
    | ResumePool
    | Shutdown(option: ShutdownOption)
    | StopPool
    | Control(choice: bool)
    | SetPolicy(policy: QueueFullPolicy)

  /** The steps that leave workers and tasks alone. */
  predicate Aside(a: Action) {
    !a.Work? && !a.BeginSubmit? && !a.ContinueSubmit? && !a.Manage? && !a.Control?
  }

  function Next(c: Config, s: Pool, a: Action): Pool
    requires Shaped(c, s)
  {
    match a
    case Work(i, choice) => if i < |s.slots| then WorkerStep(s, i, choice) else s
    case BeginSubmit(t) => SubmitBegins(s, t)
    case ContinueSubmit(t, wake) => SubmitStep(s, t, wake)
    case Manage(choice) => ManagerStep(c, s, choice)
    case CheckLoad => CallLoadCheck(s)
    case EnterCheck => EnterLoadCheck(s)
    case Balance(wakes) => BalancerStep(s, wakes)
    case PausePool => Pause(s)
    case ResumePool => Resume(s)
    case Shutdown(option) => ShutdownBegins(s, option)
    case StopPool => StopBegins(s)
    case Control(choice) => ControlStep(s, choice)
    case SetPolicy(policy) => s.(policy := policy)
  }
}
