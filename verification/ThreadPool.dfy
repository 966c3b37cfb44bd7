/** The pool as an object: its fields, and the code of each thread, one atomic step at a time.
    Every step is a step of the protocol, so whatever runs it keeps the invariant. */
module ThreadPools {
  import opened Configs
  import CQ = CircularQueues
  import opened BlockingQueues
  import opened Pools
  import opened Steps
  import SlotTable
  import Locking
  import Invariants
  import Runs
  import Lifecycle
  import opened DrainLoop
  import opened Interference
  import opened StepForms

  class ThreadPool {
    const config: Config
    const taskQueue: MPMCBlockingQueue<Task>
    var state: State
    var stopped: bool
    var policy: QueueFullPolicy
    var balancerExit: bool
    var pending: int
    var running: int
    var active: int
    var slots: seq<Slot>
    var size: nat
    var threadCount: int
    var created: int
    var destroyed: int
    var peak: int
    var succeeded: int
    var failed: int
    var submits: map<Task, SubmitPc>
    var checkers: nat
    var lock: Owner
    var manager: ManagerPc
    var balancer: BalancerPc
    var control: ControlPc
    ghost var past: History

    ghost predicate Valid()
      reads this, taskQueue, taskQueue.ring, taskQueue.ring.elems
    {
      && taskQueue.Valid() && taskQueue.ring.Capacity() == config.maxQueueSize
      && |slots| == config.maxThreads && config.coreThreads <= size <= config.maxThreads
    }

    ghost function Snapshot(): Pool
      requires taskQueue.ring.Valid()
      reads this, taskQueue, taskQueue.ring, taskQueue.ring.elems
    {
      Pool(state, stopped, policy, balancerExit, taskQueue.Model(), pending, running, active, slots, size,
           threadCount, created, destroyed, peak, succeeded, failed, submits, checkers, lock, manager, balancer,
           control, past)
    }

    /** Room for the core threads is all that the constructor needs; the rest of the
        configuration is not looked at. */
    constructor (c: Config)
      requires c.coreThreads <= c.maxThreads
      ensures config == c && Valid() && Snapshot() == Initial(c)
      ensures fresh(taskQueue) && fresh(taskQueue.ring) && fresh(taskQueue.ring.elems)
    {
      config := c;
      taskQueue := new MPMCBlockingQueue<Task>(c.maxQueueSize, 0);
      state, stopped, policy, balancerExit := Running, false, c.policy, false;
      pending, running, active, succeeded, failed := 0, 0, 0, 0, 0;
      slots := [];
      size, threadCount, created, destroyed, peak := 0, 0, 0, 0, 0;
      submits, checkers, lock, manager, control := map[], 0, Free, Idle, Outside;
      balancer := if c.enableDynamicThread then Looping else Gone;
      past := History([], 0, [], 0, WaitAll, false, false, [], 0, c.coreThreads);
      new;
      StartCoreWorkers();
    }

    method StartCoreWorkers()
      requires taskQueue.Valid() && config.coreThreads <= config.maxThreads
      requires size == threadCount == created == peak == 0
      modifies this`slots, this`size, this`threadCount, this`created, this`peak
      ensures size == config.coreThreads && |slots| == config.maxThreads
      ensures Snapshot() == old(Snapshot()).(slots := CoreWorkers(config), size := config.coreThreads,
                                             threadCount := config.coreThreads, created := config.coreThreads,
                                             peak := config.coreThreads)
    {
      EmplaceCoreWorkers();
    }

    /** The core workers are started and counted one by one. */
    method EmplaceCoreWorkers()
      requires config.coreThreads <= config.maxThreads && size == threadCount == created == peak == 0
      modifies this`slots, this`size, this`threadCount, this`created, this`peak
      ensures slots == CoreWorkers(config) && size == threadCount == created == peak == config.coreThreads
    {
      slots := seq(config.maxThreads, _ => Slot(Absent, false, false, 0));
      while size < config.coreThreads
        invariant size <= config.coreThreads && threadCount == created == peak == size
        invariant |slots| == config.maxThreads
        invariant forall i :: 0 <= i < |slots| ==>
                    slots[i] == if i < size then Slot(Top, true, false, 0) else Slot(Absent, false, false, 0)
      {
        slots := slots[size := Slot(Top, true, false, 0)];
        size := size + 1;
        created := created + 1;
        threadCount := threadCount + 1;
        if threadCount > peak {
          peak := threadCount;
        }
      }
    }

    // ----- workerLoop -----

    method Continue(i: nat, pc: WorkerPc)
      requires Valid() && i < |slots|
      modifies this`slots
      ensures Valid() && Snapshot() == old(Snapshot()).(slots := old(slots)[i := old(slots)[i].(pc := pc)])
    {
      slots := slots[i := slots[i].(pc := pc)];
    }

    method SetState(newState: State)
      requires Valid()
      modifies this`state
      ensures Valid() && Snapshot() == old(Snapshot()).(state := newState)
    {
      state := newState;
    }

    ghost method Remember(h: History)
      requires Valid()
      modifies this`past
      ensures Valid() && Snapshot() == old(Snapshot()).(past := h)
    {
      past := h;
    }

    method Unlock()
      requires Valid()
      modifies this`lock
      ensures Valid() && Snapshot() == old(Snapshot()).(lock := Free)
    {
      lock := Free;
    }

    /** Under status_mutex_. */
    method CountOutcome(ok: bool)
      requires Valid()
      modifies this`succeeded, this`failed
      ensures Valid()
      ensures Snapshot() == old(Snapshot()).(succeeded := old(succeeded) + if ok then 1 else 0,
                                             failed := old(failed) + if ok then 0 else 1)
    {
      if ok {
        succeeded := succeeded + 1;
      } else {
        failed := failed + 1;
      }
    }

    /** wait_cv_.notify_all. */
    method WakeWaiter()
      requires Valid()
      modifies this`control
      ensures Valid()
      ensures Snapshot() == old(Snapshot()).(control := if old(control) == AsleepWait then WantWait else old(control))
    {
      if control == AsleepWait {
        control := WantWait;
      }
    }

    method CheckExitFlag(i: nat, choice: bool)
      requires Valid() && i < |slots| && slots[i].pc == Top
      modifies this`slots
      ensures Valid() && Snapshot() == WorkerStep(old(Snapshot()), i, choice)
    {
      ghost var s := Snapshot();
      Continue(i, if slots[i].exitFlag then Exited else PauseCheck);
      WorkerOnlyMoves(s, Snapshot(), i, choice);
    }

    method CheckPause(i: nat, choice: bool)
      requires Valid() && i < |slots| && slots[i].pc == PauseCheck
      modifies this`slots
      ensures Valid() && Snapshot() == WorkerStep(old(Snapshot()), i, choice)
    {
      ghost var s := Snapshot();
      Continue(i, if state == Paused then PauseSpin else WantLock);
      WorkerOnlyMoves(s, Snapshot(), i, choice);
    }

    method SpinWhilePaused(i: nat, choice: bool)
      requires Valid() && i < |slots| && slots[i].pc == PauseSpin
      modifies this`slots
      ensures Valid() && Snapshot() == WorkerStep(old(Snapshot()), i, choice)
    {
      ghost var s := Snapshot();
      if state != Paused || stopped {
        Continue(i, PauseOver);
      }
      WorkerOnlyMoves(s, Snapshot(), i, choice);
    }

    method LeavePause(i: nat, choice: bool)
      requires Valid() && i < |slots| && slots[i].pc == PauseOver
      modifies this`slots
      ensures Valid() && Snapshot() == WorkerStep(old(Snapshot()), i, choice)
    {
      ghost var s := Snapshot();
      Continue(i, if stopped then Exited else WantLock);
      WorkerOnlyMoves(s, Snapshot(), i, choice);
    }

    method LockQueue(i: nat, choice: bool)
      requires Valid() && i < |slots| && (slots[i].pc == WantLock || slots[i].pc == Relocking)
      modifies this`slots, this`lock
      ensures Valid() && Snapshot() == WorkerStep(old(Snapshot()), i, choice)
    {
      ghost var s := Snapshot();
      if lock == Free {
        lock := Worker(i);
        Continue(i, if slots[i].pc == WantLock then Looking else Uncount);
      }
      WorkerOnlyMoves(s, Snapshot(), i, choice);
    }

    /** The first two thirds of the predicate of the wait on queue_cv_. */
    method LookAtQueue(i: nat, choice: bool) returns (ready: bool)
      requires Valid() && i < |slots| && slots[i].pc == Looking && lock == Worker(i)
      modifies this`slots
      ensures Valid() && Snapshot() == WorkerStep(old(Snapshot()), i, choice)
      ensures ready <==> slots[i].pc == Checking
    {
      ghost var s := Snapshot();
      var n := taskQueue.Size();
      ready := stopped || n > 0;
      Continue(i, if ready then Checking else SawEmpty);
      WorkerOnlyMoves(s, Snapshot(), i, choice);
    }

    /** Its last third; sleeping gives the mutex back. */
    method CheckFlagOrSleep(i: nat, choice: bool) returns (ready: bool)
      requires Valid() && i < |slots| && slots[i].pc == SawEmpty && lock == Worker(i)
      modifies this`slots, this`lock
      ensures Valid() && Snapshot() == WorkerStep(old(Snapshot()), i, choice)
      ensures ready <==> slots[i].pc == Checking
    {
      ghost var s := Snapshot();
      ready := slots[i].exitFlag;
      if ready {
        Continue(i, Checking);
      } else {
        Unlock();
        Continue(i, Asleep);
      }
      WorkerOnlyMoves(s, Snapshot(), i, choice);
    }

    method WakeSpuriously(i: nat, choice: bool)
      requires Valid() && i < |slots| && slots[i].pc == Asleep
      modifies this`slots
      ensures Valid() && Snapshot() == WorkerStep(old(Snapshot()), i, choice)
    {
      ghost var s := Snapshot();
      if choice {
        Continue(i, WantLock);
      }
      WorkerOnlyMoves(s, Snapshot(), i, choice);
    }

    method MustLeave() returns (leaves: bool)
      requires Valid()
      ensures leaves <==> state == ForceShutting || (stopped && Snapshot().q.ring.items == [])
    {
      var n := taskQueue.Size();
      leaves := false;
      if stopped || state == ForceShutting {
        if n == 0 || state == ForceShutting {
          leaves := true;
        }
      }
    }

    method CheckShutdown(i: nat, choice: bool) returns (leaves: bool)
      requires Valid() && i < |slots| && slots[i].pc == Checking && lock == Worker(i)
      modifies this`slots, this`lock
      ensures Valid() && Snapshot() == WorkerStep(old(Snapshot()), i, choice)
      ensures leaves <==> slots[i].pc == Exited
    {
      ghost var s := Snapshot();
      leaves := MustLeave();
      if leaves {
        Unlock();
        Continue(i, Exited);
      } else {
        Continue(i, Taking);
      }
      WorkerOnlyMoves(s, Snapshot(), i, choice);
    }

    method CheckQueue(i: nat, choice: bool) returns (some: bool)
      requires Valid() && i < |slots| && slots[i].pc == Taking && lock == Worker(i)
      modifies this`slots, this`lock
      ensures Valid() && Snapshot() == WorkerStep(old(Snapshot()), i, choice)
      ensures some <==> slots[i].pc == Dequeuing
    {
      ghost var s := Snapshot();
      var n := taskQueue.Size();
      some := n > 0;
      if some {
        Continue(i, Dequeuing);
      } else {
        Unlock();
        Continue(i, Top);
      }
      WorkerOnlyMoves(s, Snapshot(), i, choice);
    }

    method DequeueTask(i: nat, choice: bool)
      requires Valid() && i < |slots| && slots[i].pc == Dequeuing && lock == Worker(i)
      modifies this`slots, this`past, taskQueue, taskQueue.ring, taskQueue.ring.elems
      ensures Valid() && taskQueue.ring.elems == old(taskQueue.ring.elems)
      ensures Snapshot() == WorkerStep(old(Snapshot()), i, choice)
    {
      ghost var s := Snapshot();
      var task := TakeFromQueue();
      if task.Ok? {
        HandOver(i, task.value);
      }
      WorkerDequeues(s, Snapshot(), i, choice);
    }

    method TakeFromQueue() returns (task: CQ.Outcome<Task>)
      requires Valid()
      modifies taskQueue, taskQueue.ring, taskQueue.ring.elems
      ensures Valid() && taskQueue.ring.elems == old(taskQueue.ring.elems)
      ensures Snapshot() == old(Snapshot()).(q := old(Snapshot()).q.Dequeue())
      ensures task == var items := old(Snapshot()).q.ring.items;
                      if items == [] then CQ.Failed else CQ.Ok(items[0])
    {
      task := taskQueue.Dequeue();
    }

    method HandOver(i: nat, t: Task)
      requires Valid() && i < |slots|
      modifies this`slots, this`past
      ensures Valid()
      ensures Snapshot() == old(Snapshot()).(
                slots := old(slots)[i := old(slots)[i].(pc := Got(t))],
                past := old(past).(lateStarts := old(past).lateStarts + if state == ForceShutting then 1 else 0))
    {
      slots := slots[i := slots[i].(pc := Got(t))];
      if state == ForceShutting {
        past := past.(lateStarts := past.lateStarts + 1);
      }
    }

    method MarkActive(i: nat, choice: bool)
      requires Valid() && i < |slots| && slots[i].pc.Got? && lock == Worker(i)
      modifies this`slots, this`active
      ensures Valid() && Snapshot() == WorkerStep(old(Snapshot()), i, choice)
    {
      ghost var s := Snapshot();
      active := active + 1;
      Continue(i, Activated(slots[i].pc.t));
      WorkerStarts(s, Snapshot(), i, choice);
    }

    method ForgetIdleScans(i: nat, choice: bool)
      requires Valid() && i < |slots| && slots[i].pc.Activated? && lock == Worker(i)
      modifies this`slots
      ensures Valid() && Snapshot() == WorkerStep(old(Snapshot()), i, choice)
    {
      ghost var s := Snapshot();
      slots := slots[i := slots[i].(pc := Stamped(slots[i].pc.t), idle := 0)];
      WorkerStarts(s, Snapshot(), i, choice);
    }

    method CountRunning()
      requires Valid()
      modifies this`running
      ensures Valid() && Snapshot() == old(Snapshot()).(running := old(running) + 1)
    {
      running := running + 1;
    }

    method MarkRunning(i: nat, choice: bool)
      requires Valid() && i < |slots| && slots[i].pc.Stamped? && lock == Worker(i)
      modifies this`slots, this`lock, this`running
      ensures Valid() && Snapshot() == WorkerStep(old(Snapshot()), i, choice)
    {
      ghost var s := Snapshot();
      CountRunning();
      Continue(i, Executing(slots[i].pc.t));
      Unlock();
      WorkerStarts(s, Snapshot(), i, choice);
    }

    method ExecuteTask(i: nat, choice: bool)
      requires Valid() && i < |slots| && slots[i].pc.Executing?
      modifies this`slots, this`past
      ensures Valid() && Snapshot() == WorkerStep(old(Snapshot()), i, choice)
    {
      ghost var s := Snapshot();
      Remember(past.(executed := past.executed + [slots[i].pc.t],
                     failures := past.failures + if choice then 0 else 1));
      Continue(i, Reporting(choice));
      WorkerReports(s, Snapshot(), i, choice);
    }

    method ReportOutcome(i: nat, choice: bool)
      requires Valid() && i < |slots| && slots[i].pc.Reporting?
      modifies this`slots, this`succeeded, this`failed
      ensures Valid() && Snapshot() == WorkerStep(old(Snapshot()), i, choice)
    {
      ghost var s := Snapshot();
      CountOutcome(slots[i].pc.ok);
      Continue(i, Relocking);
      WorkerReports(s, Snapshot(), i, choice);
    }

    method UncountPending(i: nat, choice: bool)
      requires Valid() && i < |slots| && slots[i].pc == Uncount && lock == Worker(i)
      modifies this`slots, this`pending
      ensures Valid() && Snapshot() == WorkerStep(old(Snapshot()), i, choice)
    {
      ghost var s := Snapshot();
      pending := pending - 1;
      Continue(i, Unrun);
      WorkerFinishes(s, Snapshot(), i, choice);
    }

    method UncountRunning(i: nat, choice: bool)
      requires Valid() && i < |slots| && slots[i].pc == Unrun && lock == Worker(i)
      modifies this`slots, this`running
      ensures Valid() && Snapshot() == WorkerStep(old(Snapshot()), i, choice)
    {
      ghost var s := Snapshot();
      running := running - 1;
      Continue(i, Unactive);
      WorkerFinishes(s, Snapshot(), i, choice);
    }

    method UncountActive(i: nat, choice: bool)
      requires Valid() && i < |slots| && slots[i].pc == Unactive && lock == Worker(i)
      modifies this`slots, this`active
      ensures Valid() && Snapshot() == WorkerStep(old(Snapshot()), i, choice)
    {
      ghost var s := Snapshot();
      active := active - 1;
      Continue(i, Announce);
      WorkerFinishes(s, Snapshot(), i, choice);
    }

    /** The waiter is told before the mutex is given back. */
    method NotifyWaiter(i: nat, choice: bool)
      requires Valid() && i < |slots| && slots[i].pc == Announce && lock == Worker(i)
      modifies this`slots, this`lock, this`control
      ensures Valid() && Snapshot() == WorkerStep(old(Snapshot()), i, choice)
    {
      ghost var s := Snapshot();
      WakeWaiter();
      Continue(i, Top);
      Unlock();
      WorkerFinishes(s, Snapshot(), i, choice);
    }

    // ----- submit -----

    method SetSubmit(t: Task, pc: SubmitPc)
      requires Valid()
      modifies this`submits
      ensures Valid() && Snapshot() == old(Snapshot()).(submits := old(submits)[t := pc])
    {
      submits := submits[t := pc];
    }

    /** The running check; false stands for the exception. */
    method BeginSubmit(t: Task) returns (running: bool)
      requires Valid() && t !in submits
      modifies this`submits
      ensures Valid() && Snapshot() == SubmitBegins(old(Snapshot()), t)
      ensures running <==> state == Running
    {
      running := state == Running;
      if running {
        SetSubmit(t, Checked);
      }
    }

    method ReadPolicy(t: Task, wake: nat)
      requires Valid() && t in submits && submits[t] == Checked
      modifies this`submits
      ensures Valid() && Snapshot() == SubmitStep(old(Snapshot()), t, wake)
    {
      SetSubmit(t, Chosen(policy));
    }

    /** A blocked producer stays where it is; a discarded task ends the call. */
    method PushTask(t: Task, wake: nat)
      requires Valid() && t in submits && submits[t].Chosen?
      modifies this`submits, taskQueue, taskQueue.ring, taskQueue.ring.elems
      ensures Valid() && taskQueue.ring.elems == old(taskQueue.ring.elems)
      ensures Snapshot() == SubmitStep(old(Snapshot()), t, wake)
    {
      var pc := PushByPolicy(t, submits[t].policy);
      if pc != submits[t] {
        SetSubmit(t, pc);
      }
    }

    method PushByPolicy(t: Task, policy: QueueFullPolicy) returns (pc: SubmitPc)
      requires Valid()
      modifies taskQueue, taskQueue.ring, taskQueue.ring.elems
      ensures Valid() && taskQueue.ring.elems == old(taskQueue.ring.elems)
      ensures pc == if !old(Snapshot()).q.ring.Full() || policy == Overwrite then Pushed
                    else if policy == Discard then Done
                    else Chosen(policy)
      ensures Snapshot() == old(Snapshot()).(q := if pc.Pushed? then old(Snapshot()).q.EnqueueNoWait(t)
                                                  else if pc.Done? then old(Snapshot()).q.EnqueueIfNotFull(t)
                                                  else old(Snapshot()).q)
    {
      match policy
      case Blocking =>
        var done := taskQueue.Enqueue(t);
        pc := if done then Pushed else Chosen(policy);
      case Overwrite =>
        taskQueue.EnqueueNoWait(t);
        pc := Pushed;
      case Discard =>
        var accepted := taskQueue.EnqueueIfNotFull(t);
        pc := if accepted then Pushed else Done;
    }

    method CountPending(t: Task, wake: nat)
      requires Valid() && t in submits && submits[t] == Pushed
      modifies this`submits, this`pending
      ensures Valid() && Snapshot() == SubmitStep(old(Snapshot()), t, wake)
    {
      pending := pending + 1;
      SetSubmit(t, Counted);
    }

    /** notify_one under queue_mutex_: `wake` is the sleeper it picks, and it picks one if there
        is one. */
    method NotifyOneWorker(t: Task, wake: nat)
      requires Valid() && t in submits && submits[t] == Counted
      modifies this`submits, this`slots
      ensures Valid() && Snapshot() == SubmitStep(old(Snapshot()), t, wake)
    {
      if lock == Free {
        if IsAsleep(slots, wake) {
          Continue(wake, WantLock);
          SetSubmit(t, Done);
        } else if NoneAsleep(slots) {
          SetSubmit(t, Done);
        }
      }
    }

    // ----- loadCheck and cleanFinishedThread -----

    /** Whoever held worker_access_mutex_ lets it go when `pc` is Idle. */
    method Proceed(pc: ManagerPc)
      requires Valid()
      modifies this`manager, this`balancer
      ensures Valid()
      ensures Snapshot() == old(Snapshot()).(
                manager := pc,
                balancer := if pc.Idle? && old(balancer).InLoadCheck? then WantClean
                            else if pc.Idle? && old(balancer).InClean? then Looping
                            else old(balancer))
    {
      manager := pc;
      if pc == Idle {
        if balancer == InLoadCheck {
          balancer := WantClean;
        } else if balancer == InClean {
          balancer := Looping;
        }
      }
    }

    method SetSlot(i: nat, w: Slot)
      requires Valid() && i < |slots|
      modifies this`slots
      ensures Valid() && Snapshot() == old(Snapshot()).(slots := old(slots)[i := w])
    {
      slots := slots[i := w];
    }

    method ReadActiveThreads(choice: bool)
      requires Valid() && manager == ReadActive
      modifies this`manager, this`balancer
      ensures Valid() && Snapshot() == ManagerStep(config, old(Snapshot()), choice)
    {
      ManagerGoes(config, Snapshot(), choice);
      Proceed(ReadPending(active));
    }

    method JudgeGrowth(activeThreads: int) returns (shouldExpand: bool)
      ensures shouldExpand <==> ShouldExpand(config, activeThreads, threadCount, pending)
    {
      var loadFactor := LoadFactor(activeThreads, threadCount);
      var pendingTask := Unsigned(pending);
      shouldExpand := false;
      if threadCount < config.maxThreads {
        if loadFactor >= config.expandFactor {
          shouldExpand := true;
        } else if pendingTask >= config.taskLimit {
          shouldExpand := true;
        } else if threadCount > 0 && pendingTask as real / threadCount as real > config.avgTaskThreshold {
          shouldExpand := true;
        }
      }
    }

    method JudgeLoad(choice: bool)
      requires Valid() && manager.ReadPending?
      modifies this`manager, this`balancer
      ensures Valid() && Snapshot() == ManagerStep(config, old(Snapshot()), choice)
    {
      ManagerGoes(config, Snapshot(), choice);
      var shouldExpand := JudgeGrowth(manager.active);
      if shouldExpand {
        Proceed(Create);
      } else if threadCount > config.coreThreads && LoadFactor(manager.active, threadCount) < config.removeFactor {
        Proceed(Scan(config.coreThreads));
      } else {
        Proceed(Idle);
      }
    }

    method FindFlagged() returns (i: nat)
      requires config.coreThreads <= size <= |slots|
      ensures i == FirstFlagged(slots, config.coreThreads, size)
    {
      i := config.coreThreads;
      while i < size && !slots[i].exitFlag
        invariant config.coreThreads <= i <= size
        invariant FirstFlagged(slots, config.coreThreads, size) == FirstFlagged(slots, i, size)
      {
        i := i + 1;
      }
    }

    /** tryCreateNewThread chooses the slot to fill. */
    method ChooseSlot(choice: bool)
      requires Valid() && manager == Create
      modifies this`manager, this`balancer
      ensures Valid() && Snapshot() == ManagerStep(config, old(Snapshot()), choice)
    {
      ManagerGoes(config, Snapshot(), choice);
      var pc := SlotToFill();
      Proceed(pc);
    }

    /** No slot from the core slots on and before slot n tells its thread to exit. */
    ghost predicate NoneFlagged(n: nat)
      requires n <= |slots|
      reads this
    {
      forall j :: config.coreThreads <= j < n ==> !slots[j].exitFlag
    }

    /** The first flagged slot is reused, after a join if its thread has not been joined; a slot is
        added only if there is none; and only a full table without one, or stop, keeps the thread
        from being created. */
    method SlotToFill() returns (pc: ManagerPc)
      requires Valid()
      ensures pc == AfterCreate(config, Snapshot())
      ensures pc.Idle? || pc.Emplace? || pc.JoinOld? || pc.Respawn?
      ensures pc.Idle? <==> stopped || (size == config.maxThreads && NoneFlagged(size))
      ensures pc.Emplace? <==> !stopped && size < config.maxThreads && NoneFlagged(size)
      ensures pc.JoinOld? || pc.Respawn? ==>
                && !stopped && config.coreThreads <= pc.i < size && slots[pc.i].exitFlag && NoneFlagged(pc.i)
                && (pc.JoinOld? <==> slots[pc.i].joinable)
    {
      var i := FindFlagged();
      if stopped || i >= config.maxThreads {
        pc := Idle;
      } else if i == size {
        pc := Emplace;
      } else {
        pc := if slots[i].joinable then JoinOld(i) else Respawn(i);
      }
    }

    /** The thread of a flagged slot has been joined. */
    method UncountThread(i: nat)
      requires Valid() && i < |slots|
      modifies this`slots, this`threadCount, this`destroyed
      ensures Valid()
      ensures Snapshot() == old(Snapshot()).(slots := old(slots)[i := old(slots)[i].(joinable := false)],
                                             threadCount := old(threadCount) - 1, destroyed := old(destroyed) + 1)
    {
      slots := slots[i := slots[i].(joinable := false)];
      threadCount := threadCount - 1;
      destroyed := destroyed + 1;
    }

    method JoinOldWorker(choice: bool)
      requires Valid() && manager.JoinOld? && manager.i < size
      modifies this`manager, this`balancer, this`slots, this`threadCount, this`destroyed
      ensures Valid() && Snapshot() == ManagerStep(config, old(Snapshot()), choice)
    {
      JoinOldStep(config, Snapshot(), choice);
      var i := manager.i;
      if slots[i].pc == Exited {
        UncountThread(i);
        Proceed(Respawn(i));
      }
    }

    /** `starts` is false when std::thread throws. */
    method RespawnWorker(starts: bool)
      requires Valid() && manager.Respawn? && manager.i < size && !slots[manager.i].joinable
      modifies this`manager, this`balancer, this`slots
      ensures Valid() && Snapshot() == ManagerStep(config, old(Snapshot()), starts)
    {
      StartStep(config, Snapshot(), starts);
      var i := manager.i;
      if starts {
        SetSlot(i, slots[i].(pc := Top, joinable := true));
        Proceed(ResetIdle(i));
      } else {
        Proceed(Idle);
      }
    }

    method ResetIdleCount(choice: bool)
      requires Valid() && manager.ResetIdle? && manager.i < size
      modifies this`manager, this`balancer, this`slots
      ensures Valid() && Snapshot() == ManagerStep(config, old(Snapshot()), choice)
    {
      ManagerSets(config, Snapshot(), choice);
      var i := manager.i;
      SetSlot(i, slots[i].(idle := 0));
      Proceed(ClearFlag(i));
    }

    method ClearExitFlag(choice: bool)
      requires Valid() && manager.ClearFlag? && manager.i < size
      modifies this`manager, this`balancer, this`slots
      ensures Valid() && Snapshot() == ManagerStep(config, old(Snapshot()), choice)
    {
      ManagerSets(config, Snapshot(), choice);
      SetSlot(manager.i, slots[manager.i].(exitFlag := false));
      Proceed(CountThread);
    }

    method EmplaceWorker(starts: bool)
      requires Valid() && manager == Emplace && size < config.maxThreads && !slots[size].joinable
      modifies this`manager, this`balancer, this`slots, this`size
      ensures Valid() && Snapshot() == ManagerStep(config, old(Snapshot()), starts)
    {
      StartStep(config, Snapshot(), starts);
      if starts {
        SetSlot(size, slots[size].(pc := Top, joinable := true));
        size := size + 1;
        Proceed(CountThread);
      } else {
        Proceed(Idle);
      }
    }

    method CountNewThread(choice: bool)
      requires Valid() && manager == CountThread
      modifies this`manager, this`balancer, this`threadCount, this`past
      ensures Valid() && Snapshot() == ManagerStep(config, old(Snapshot()), choice)
    {
      CountStep(config, Snapshot(), choice);
      AddThread();
      Proceed(RecordThread);
    }

    method AddThread()
      requires Valid()
      modifies this`threadCount, this`past
      ensures Valid()
      ensures Snapshot() == old(Snapshot()).(
                threadCount := old(threadCount) + 1,
                past := old(past).(maxThreads := Larger(old(past).maxThreads, old(threadCount) + 1)))
    {
      threadCount := threadCount + 1;
      past := past.(maxThreads := Larger(past.maxThreads, threadCount));
    }

    /** Under status_mutex_. */
    method RecordCreation()
      requires Valid()
      modifies this`created, this`peak
      ensures Valid()
      ensures Snapshot() == old(Snapshot()).(created := old(created) + 1, peak := Larger(old(peak), threadCount))
    {
      created := created + 1;
      if threadCount > peak {
        peak := threadCount;
      }
    }

    method RecordNewThread(choice: bool)
      requires Valid() && manager == RecordThread
      modifies this`manager, this`balancer, this`created, this`peak
      ensures Valid() && Snapshot() == ManagerStep(config, old(Snapshot()), choice)
    {
      CountStep(config, Snapshot(), choice);
      RecordCreation();
      Proceed(Idle);
    }

    /** One round of tryRemoveIdleThread; `idle` says that the threshold has passed. */
    method ScanWorker(idle: bool) returns (unflagged: bool)
      requires Valid() && manager.Scan?
      modifies this`manager, this`balancer, this`slots
      ensures Valid() && Snapshot() == ManagerStep(config, old(Snapshot()), idle)
      ensures unflagged <==> manager.TestIdle?
    {
      var i := manager.i;
      ScanStep(config, Snapshot(), idle);
      unflagged := i < size && !slots[i].exitFlag;
      if i >= size {
        Proceed(Idle);
      } else if slots[i].exitFlag {
        Proceed(Scan(i + 1));
      } else {
        SetSlot(i, slots[i].(idle := if idle then slots[i].idle + 1 else slots[i].idle));
        Proceed(TestIdle(i));
      }
    }

    method TestIdleCount(choice: bool) returns (found: bool)
      requires Valid() && manager.TestIdle? && manager.i < size
      modifies this`manager, this`balancer
      ensures Valid() && Snapshot() == ManagerStep(config, old(Snapshot()), choice)
      ensures found <==> manager.Retire?
    {
      var i := manager.i;
      ManagerGoes(config, Snapshot(), choice);
      found := slots[i].idle >= config.consecutiveIdleCount;
      Proceed(if found then Retire(i) else Scan(i + 1));
    }

    /** queue_cv_.notify_all. */
    method WakeWorkers()
      requires Valid()
      modifies this`slots
      ensures Valid() && Snapshot() == old(Snapshot()).(slots := WakeAll(old(slots)))
    {
      var i := 0;
      while i < |slots|
        invariant i <= |slots| == |old(slots)|
        invariant forall j :: 0 <= j < |slots| ==> slots[j] == if j < i then WakeAll(old(slots))[j] else old(slots)[j]
      {
        if slots[i].pc == Asleep {
          slots := slots[i := slots[i].(pc := WantLock)];
        }
        i := i + 1;
      }
      assert slots == WakeAll(old(slots));
    }

    method TellToExit(i: nat)
      requires Valid() && i < |slots|
      modifies this`slots
      ensures Valid()
      ensures Snapshot() == old(Snapshot()).(slots := WakeAll(old(slots)[i := old(slots)[i].(exitFlag := true)]))
    {
      SetSlot(i, slots[i].(exitFlag := true));
      WakeWorkers();
    }

    method RetireWorker(choice: bool)
      requires Valid() && manager.Retire? && manager.i < size
      modifies this`manager, this`balancer, this`slots
      ensures Valid() && Snapshot() == ManagerStep(config, old(Snapshot()), choice)
    {
      RetireStep(config, Snapshot(), choice);
      if lock == Free {
        TellToExit(manager.i);
        Proceed(Idle);
      }
    }

    /** One round of cleanFinishedThread. */
    method CleanWorker(choice: bool)
      requires Valid() && manager.Clean?
      modifies this`manager, this`balancer, this`slots, this`threadCount, this`destroyed
      ensures Valid() && Snapshot() == ManagerStep(config, old(Snapshot()), choice)
    {
      if manager.i < size && slots[manager.i].exitFlag && slots[manager.i].joinable {
        JoinCleaned(choice);
      } else {
        PassOver(choice);
      }
    }

    method PassOver(choice: bool)
      requires Valid() && manager.Clean? && (manager.i < size ==> !MustJoin(Snapshot(), manager.i))
      modifies this`manager, this`balancer
      ensures Valid() && Snapshot() == ManagerStep(config, old(Snapshot()), choice)
    {
      CleanPasses(config, Snapshot(), choice);
      Proceed(if manager.i < size then Clean(manager.i + 1) else Idle);
    }

    method JoinCleaned(choice: bool)
      requires Valid() && manager.Clean? && manager.i < size && MustJoin(Snapshot(), manager.i)
      modifies this`manager, this`balancer, this`slots, this`threadCount, this`destroyed
      ensures Valid() && Snapshot() == ManagerStep(config, old(Snapshot()), choice)
    {
      CleanJoins(config, Snapshot(), choice);
      if slots[manager.i].pc == Exited {
        UncountThread(manager.i);
        Proceed(Clean(manager.i + 1));
      }
    }

    // ----- loadBalancerLoop -----

    method CheckBalancerExit(wakes: bool)
      requires Valid() && (balancer == Looping || balancer == Napping)
      modifies this`balancer
      ensures Valid() && Snapshot() == BalancerStep(old(Snapshot()), wakes)
    {
      balancer := if balancerExit then Gone else if balancer == Looping then AwaitResume else LoadCheck;
    }

    /** The wait on pause_cv_ under state_mutex_, and the check after it. */
    method AwaitResumption(wakes: bool)
      requires Valid() && (balancer == AwaitResume || balancer == AsleepPaused)
      modifies this`balancer
      ensures Valid() && Snapshot() == BalancerStep(old(Snapshot()), wakes)
    {
      if balancer == AsleepPaused {
        balancer := if wakes then AwaitResume else AsleepPaused;
      } else if state == Paused && !balancerExit {
        balancer := AsleepPaused;
      } else {
        balancer := if state != Running then Gone else Napping;
      }
    }

    method CheckRunning(wakes: bool)
      requires Valid() && balancer == LoadCheck
      modifies this`balancer
      ensures Valid() && Snapshot() == BalancerStep(old(Snapshot()), wakes)
    {
      balancer := if state == Running then WantLoadCheck else WantClean;
    }

    method LockWorkers(wakes: bool)
      requires Valid() && (balancer == WantLoadCheck || balancer == WantClean)
      modifies this`balancer, this`manager
      ensures Valid() && Snapshot() == BalancerStep(old(Snapshot()), wakes)
    {
      if manager == Idle {
        if balancer == WantLoadCheck {
          manager, balancer := ReadActive, InLoadCheck;
        } else {
          manager, balancer := Clean(0), InClean;
        }
      }
    }

    // ----- pause, resume, shutdown, setQueueFullPolicy, loadCheck from outside -----

    method SetQueueFullPolicy(newPolicy: QueueFullPolicy)
      requires Valid()
      modifies this`policy
      ensures Valid() && Snapshot() == old(Snapshot()).(policy := newPolicy)
    {
      policy := newPolicy;
    }

    /** The running test of a loadCheck from outside. */
    method CallLoadCheckFromOutside()
      requires Valid()
      modifies this`checkers
      ensures Valid() && Snapshot() == CallLoadCheck(old(Snapshot()))
    {
      if state == Running {
        checkers := checkers + 1;
      }
    }

    method EnterLoadCheckFromOutside()
      requires Valid()
      modifies this`manager, this`checkers
      ensures Valid() && Snapshot() == EnterLoadCheck(old(Snapshot()))
    {
      if checkers > 0 && manager == Idle && !BalancerJoined(control) {
        checkers := checkers - 1;
        manager := ReadActive;
      }
    }

    method BeginStop()
      requires Valid()
      modifies this`control
      ensures Valid() && Snapshot() == StopBegins(old(Snapshot()))
    {
      if control == Outside {
        control := StopBalancer;
      }
    }

    method PausePool()
      requires Valid()
      modifies this`state
      ensures Valid() && Snapshot() == Pause(old(Snapshot()))
    {
      if state == Running {
        state := Paused;
      }
    }

    method NotifyBalancer()
      requires Valid()
      modifies this`balancer
      ensures Valid() && Snapshot() == old(Snapshot()).(balancer := WakeBalancer(old(balancer)))
    {
      if balancer == AsleepPaused {
        balancer := AwaitResume;
      }
    }

    method ResumePool()
      requires Valid()
      modifies this`state, this`balancer
      ensures Valid() && Snapshot() == Resume(old(Snapshot()))
    {
      if state == Paused {
        state := Running;
      }
      NotifyBalancer();
    }

    /** False means that another shutdown has been here first. */
    method BeginShutdown(option: ShutdownOption) returns (passed: bool)
      requires Valid()
      modifies this`state, this`control, this`past
      ensures Valid() && Snapshot() == ShutdownBegins(old(Snapshot()), option)
      ensures passed <==> old(control) == Outside && (old(state) == Running || old(state) == Paused)
    {
      passed := control == Outside && (state == Running || state == Paused);
      if passed {
        Remember(past.(shutdowns := past.shutdowns + 1, option := option, quiet := Quiet(Snapshot())));
        SetState(ShuttingDown);
        Go(match option
           case WaitAll => WantWait
           case Force => Forcing
           case WaitFor => PollRunning);
      }
    }

    // ----- waitForAllTask, waitForRunningTask, forceStop, stop -----

    method Go(pc: ControlPc)
      requires Valid()
      modifies this`control
      ensures Valid() && Snapshot() == old(Snapshot()).(control := pc)
    {
      control := pc;
    }

    method ControlLock()
      requires Valid()
      modifies this`lock
      ensures Valid() && Snapshot() == old(Snapshot()).(lock := Controller)
    {
      lock := Controller;
    }

    method LockToWait(choice: bool)
      requires Valid() && control == WantWait
      modifies this`control, this`lock
      ensures Valid() && Snapshot() == ControlStep(old(Snapshot()), choice)
    {
      ControlGoes(Snapshot(), choice);
      if lock == Free {
        ControlLock();
        Go(EvalWait);
      }
    }

    /** The predicate of the wait on wait_cv_; either way the mutex is given back. */
    method EvaluateWait(choice: bool)
      requires Valid() && control == EvalWait
      modifies this`control, this`lock
      ensures Valid() && Snapshot() == ControlStep(old(Snapshot()), choice)
    {
      ControlGoes(Snapshot(), choice);
      Unlock();
      Go(if pending == 0 then StopBalancer else AsleepWait);
    }

    method WakeWaiterSpuriously(choice: bool)
      requires Valid() && control == AsleepWait
      modifies this`control
      ensures Valid() && Snapshot() == ControlStep(old(Snapshot()), choice)
    {
      ControlGoes(Snapshot(), choice);
      if choice {
        Go(WantWait);
      }
    }

    method PollRunningTasks(timeout: bool)
      requires Valid() && control == PollRunning
      modifies this`control
      ensures Valid() && Snapshot() == ControlStep(old(Snapshot()), timeout)
    {
      ControlGoes(Snapshot(), timeout);
      Go(PollPending(running));
    }

    method PollPendingTasks(timeout: bool)
      requires Valid() && control.PollPending?
      modifies this`control
      ensures Valid() && Snapshot() == ControlStep(old(Snapshot()), timeout)
    {
      ControlGoes(Snapshot(), timeout);
      if control.running == 0 && pending == 0 {
        Go(StopBalancer);
      } else {
        Go(if timeout then Forcing else PollRunning);
      }
    }

    /** forceStop gives up if it was called before. */
    method StoreForceShutting(choice: bool)
      requires Valid() && control == Forcing
      modifies this`control, this`state, this`past
      ensures Valid() && Snapshot() == ControlStep(old(Snapshot()), choice)
    {
      ForceStep(Snapshot(), choice);
      if state == ForceShutting || state == Stopped {
        Go(Returned);
      } else {
        SetState(ForceShutting);
        Remember(past.(forced := true));
        Go(WantDrain);
      }
    }

    method LockToDrain(choice: bool)
      requires Valid() && control == WantDrain
      modifies this`control, this`lock, this`past
      ensures Valid() && Snapshot() == ControlStep(old(Snapshot()), choice)
    {
      ForceStep(Snapshot(), choice);
      if lock == Free {
        Remember(past.(atDrain := taskQueue.Model().ring.items));
        ControlLock();
        Go(Drain);
      }
    }

    method CheckDrained(choice: bool) returns (more: bool)
      requires Valid() && control == Drain && lock == Controller
      modifies this`control, this`lock
      ensures Valid() && Snapshot() == ControlStep(old(Snapshot()), choice)
      ensures more <==> control == DrainDequeue
    {
      ControlGoes(Snapshot(), choice);
      var n := taskQueue.Size();
      more := n > 0;
      if more {
        Go(DrainDequeue);
      } else {
        Unlock();
        Go(StopBalancer);
      }
    }

    method DrainTask(choice: bool)
      requires Valid() && control == DrainDequeue && lock == Controller
      modifies this`control, taskQueue, taskQueue.ring, taskQueue.ring.elems
      ensures Valid() && taskQueue.ring.elems == old(taskQueue.ring.elems)
      ensures Snapshot() == ControlStep(old(Snapshot()), choice)
    {
      DrainStep(Snapshot(), choice);
      var task := TakeFromQueue();
      if task.Ok? {
        Go(DrainGot(task.value));
      }
    }

    method AbandonTask(choice: bool)
      requires Valid() && control.DrainGot? && lock == Controller
      modifies this`control, this`past
      ensures Valid() && Snapshot() == ControlStep(old(Snapshot()), choice)
    {
      DrainStep(Snapshot(), choice);
      Remember(past.(abandoned := past.abandoned + [control.t]));
      Go(DrainUncount);
    }

    method UncountDrained(choice: bool)
      requires Valid() && control == DrainUncount && lock == Controller
      modifies this`control, this`pending
      ensures Valid() && Snapshot() == ControlStep(old(Snapshot()), choice)
    {
      DrainStep(Snapshot(), choice);
      pending := pending - 1;
      Go(DrainFail);
    }

    method FailDrained(choice: bool)
      requires Valid() && control == DrainFail && lock == Controller
      modifies this`control, this`succeeded, this`failed
      ensures Valid() && Snapshot() == ControlStep(old(Snapshot()), choice)
    {
      DrainStep(Snapshot(), choice);
      CountOutcome(false);
      Go(Drain);
    }

    method ReleaseBalancer()
      requires Valid()
      modifies this`balancerExit, this`balancer
      ensures Valid()
      ensures Snapshot() == old(Snapshot()).(balancerExit := true, balancer := WakeBalancer(old(balancer)))
    {
      balancerExit := true;
      NotifyBalancer();
    }

    method TellBalancerToExit(choice: bool)
      requires Valid() && control == StopBalancer
      modifies this`control, this`balancerExit, this`balancer
      ensures Valid() && Snapshot() == ControlStep(old(Snapshot()), choice)
    {
      StopStep(Snapshot(), choice);
      ReleaseBalancer();
      Go(StopWorkers);
    }

    method TellWorkersToExit(choice: bool)
      requires Valid() && control == StopWorkers
      modifies this`control, this`stopped, this`slots
      ensures Valid() && Snapshot() == ControlStep(old(Snapshot()), choice)
    {
      StopStep(Snapshot(), choice);
      if lock == Free {
        ReleaseWorkers();
        Go(JoinBalancer);
      }
    }

    method ReleaseWorkers()
      requires Valid()
      modifies this`stopped, this`slots
      ensures Valid() && Snapshot() == old(Snapshot()).(stopped := true, slots := WakeAll(old(slots)))
    {
      stopped := true;
      WakeWorkers();
    }

    method JoinBalancerThread(choice: bool)
      requires Valid() && control == JoinBalancer
      modifies this`control
      ensures Valid() && Snapshot() == ControlStep(old(Snapshot()), choice)
    {
      ControlGoes(Snapshot(), choice);
      if balancer == Gone && manager == Idle {
        Go(Join(0));
      }
    }

    /** One round of the loop that joins the workers. */
    method JoinWorker(choice: bool)
      requires Valid() && control.Join?
      modifies this`control, this`slots
      ensures Valid() && Snapshot() == ControlStep(old(Snapshot()), choice)
    {
      StopStep(Snapshot(), choice);
      var i := control.i;
      if i >= size {
        Go(Finish);
      } else if !slots[i].joinable || slots[i].pc == Exited {
        SetSlot(i, slots[i].(joinable := false));
        Go(Join(i + 1));
      }
    }

    method StoreStopped(choice: bool)
      requires Valid() && control == Finish
      modifies this`control, this`state
      ensures Valid() && Snapshot() == ControlStep(old(Snapshot()), choice)
    {
      StopStep(Snapshot(), choice);
      SetState(Stopped);
      Go(Returned);
    }

    // ----- every action of the protocol -----

    method WorkerTurn(i: nat, choice: bool)
      requires Valid() && Locking.Locked(Snapshot()) && i < |slots|
      modifies this, taskQueue, taskQueue.ring, taskQueue.ring.elems
      ensures Valid() && taskQueue.ring.elems == old(taskQueue.ring.elems)
      ensures Snapshot() == WorkerStep(old(Snapshot()), i, choice)
    {
      assert Locking.LockOk(Snapshot(), i);
      match slots[i].pc
      case Absent =>
      case Top => CheckExitFlag(i, choice);
      case PauseCheck => CheckPause(i, choice);
      case PauseSpin => SpinWhilePaused(i, choice);
      case PauseOver => LeavePause(i, choice);
      case WantLock => LockQueue(i, choice);
      case Looking => var _ := LookAtQueue(i, choice);
      case SawEmpty => var _ := CheckFlagOrSleep(i, choice);
      case Asleep => WakeSpuriously(i, choice);
      case Checking => var _ := CheckShutdown(i, choice);
      case Taking => var _ := CheckQueue(i, choice);
      case Dequeuing => DequeueTask(i, choice);
      case Got(_) => MarkActive(i, choice);
      case Activated(_) => ForgetIdleScans(i, choice);
      case Stamped(_) => MarkRunning(i, choice);
      case Executing(_) => ExecuteTask(i, choice);
      case Reporting(_) => ReportOutcome(i, choice);
      case Relocking => LockQueue(i, choice);
      case Uncount => UncountPending(i, choice);
      case Unrun => UncountRunning(i, choice);
      case Unactive => UncountActive(i, choice);
      case Announce => NotifyWaiter(i, choice);
      case Exited =>
    }

    method SubmitTurn(t: Task, wake: nat)
      requires Valid()
      modifies this, taskQueue, taskQueue.ring, taskQueue.ring.elems
      ensures Valid() && taskQueue.ring.elems == old(taskQueue.ring.elems)
      ensures Snapshot() == SubmitStep(old(Snapshot()), t, wake)
    {
      if t in submits {
        match submits[t]
        case Checked => ReadPolicy(t, wake);
        case Chosen(_) => PushTask(t, wake);
        case Pushed => CountPending(t, wake);
        case Counted => NotifyOneWorker(t, wake);
        case Done =>
      }
    }

    method ManagerTurn(choice: bool)
      requires Valid() && SlotTable.Table(config, Snapshot())
      modifies this
      ensures Valid() && Snapshot() == ManagerStep(config, old(Snapshot()), choice)
    {
      match manager
      case Idle =>
      case ReadActive => ReadActiveThreads(choice);
      case ReadPending(_) => JudgeLoad(choice);
      case Create => ChooseSlot(choice);
      case JoinOld(_) => JoinOldWorker(choice);
      case Respawn(_) => RespawnWorker(choice);
      case ResetIdle(_) => ResetIdleCount(choice);
      case ClearFlag(_) => ClearExitFlag(choice);
      case Emplace =>
        assert SlotTable.SlotOk(config, Snapshot(), size);
        EmplaceWorker(choice);
      case CountThread => CountNewThread(choice);
      case RecordThread => RecordNewThread(choice);
      case Scan(_) => var _ := ScanWorker(choice);
      case TestIdle(_) => var _ := TestIdleCount(choice);
      case Retire(_) => RetireWorker(choice);
      case Clean(_) => CleanWorker(choice);
    }

    method BalancerTurn(wakes: bool)
      requires Valid()
      modifies this`balancer, this`manager
      ensures Valid() && Snapshot() == BalancerStep(old(Snapshot()), wakes)
    {
      match balancer
      case Looping => CheckBalancerExit(wakes);
      case AwaitResume => AwaitResumption(wakes);
      case AsleepPaused => AwaitResumption(wakes);
      case Napping => CheckBalancerExit(wakes);
      case LoadCheck => CheckRunning(wakes);
      case WantLoadCheck => LockWorkers(wakes);
      case WantClean => LockWorkers(wakes);
      case _ =>
    }

    method ControlTurn(choice: bool)
      requires Valid() && Locking.Locked(Snapshot())
      modifies this, taskQueue, taskQueue.ring, taskQueue.ring.elems
      ensures Valid() && taskQueue.ring.elems == old(taskQueue.ring.elems)
      ensures Snapshot() == ControlStep(old(Snapshot()), choice)
    {
      match control
      case Outside =>
      case WantWait => LockToWait(choice);
      case EvalWait => EvaluateWait(choice);
      case AsleepWait => WakeWaiterSpuriously(choice);
      case PollRunning => PollRunningTasks(choice);
      case PollPending(_) => PollPendingTasks(choice);
      case Forcing => StoreForceShutting(choice);
      case WantDrain => LockToDrain(choice);
      case Drain => var _ := CheckDrained(choice);
      case DrainDequeue => DrainTask(choice);
      case DrainGot(_) => AbandonTask(choice);
      case DrainUncount => UncountDrained(choice);
      case DrainFail => FailDrained(choice);
      case StopBalancer => TellBalancerToExit(choice);
      case StopWorkers => TellWorkersToExit(choice);
      case JoinBalancer => JoinBalancerThread(choice);
      case Join(_) => JoinWorker(choice);
      case Finish => StoreStopped(choice);
      case Returned =>
    }

    method Dispatch(a: Action)
      requires Valid() && SlotTable.Table(config, Snapshot()) && Locking.Locked(Snapshot())
      modifies this, taskQueue, taskQueue.ring, taskQueue.ring.elems
      ensures Valid() && taskQueue.ring.elems == old(taskQueue.ring.elems)
      ensures Snapshot() == Next(config, old(Snapshot()), a)
    {
      match a
      case Work(i, choice) => if i < |slots| { WorkerTurn(i, choice); }
      case ContinueSubmit(t, wake) => SubmitTurn(t, wake);
      case Manage(choice) => ManagerTurn(choice);
      case Balance(wakes) => BalancerTurn(wakes);
      case Control(choice) => ControlTurn(choice);
      case _ => OutsideCall(a);
    }

    /** Whichever thread moves, the pool makes the step of the protocol and keeps the
        invariant. */
    method Perform(a: Action)
      requires Valid() && Invariants.Inv(config, Snapshot())
      modifies this, taskQueue, taskQueue.ring, taskQueue.ring.elems
      ensures Valid() && taskQueue.ring.elems == old(taskQueue.ring.elems)
      ensures Snapshot() == Next(config, old(Snapshot()), a) && Invariants.Inv(config, Snapshot())
    {
      Invariants.NextInv(config, Snapshot(), a);
      Dispatch(a);
    }

    predicate FromOutside(a: Action) {
      !a.Work? && !a.ContinueSubmit? && !a.Manage? && !a.Balance? && !a.Control?
    }

    method OutsideCall(a: Action)
      requires Valid() && FromOutside(a)
      modifies this
      ensures Valid() && Snapshot() == Next(config, old(Snapshot()), a)
    {
      match a
      case BeginSubmit(t) => if t !in submits { var _ := BeginSubmit(t); }
      case CheckLoad => CallLoadCheckFromOutside();
      case EnterCheck => EnterLoadCheckFromOutside();
      case PausePool => PausePool();
      case ResumePool => ResumePool();
      case Shutdown(option) => var _ := BeginShutdown(option);
      case StopPool => BeginStop();
      case SetPolicy(newPolicy) => SetQueueFullPolicy(newPolicy);
    }

    /** Any schedule of any number of threads leaves the pool where the protocol says. */
    method PerformAll(actions: seq<Action>)
      requires Valid() && Invariants.Inv(config, Snapshot())
      modifies this, taskQueue, taskQueue.ring, taskQueue.ring.elems
      ensures Valid() && taskQueue.ring.elems == old(taskQueue.ring.elems)
      ensures Snapshot() == Runs.Execute(config, old(Snapshot()), actions)
    {
      ghost var start := Snapshot();
      assert actions[..0] == [];
      for n := 0 to |actions|
        invariant Valid() && taskQueue.ring.elems == old(taskQueue.ring.elems)
        invariant Snapshot() == Runs.Execute(config, start, actions[..n])
      {
        Runs.ExecuteInv(config, start, actions[..n]);
        Runs.ExecuteNext(config, start, actions, n);
        Perform(actions[n]);
      }
      assert actions[..|actions|] == actions;
    }

    // ----- the source's functions, with the other threads moving in between -----

    method LetOthersDrain(ghost within: Pool -> bool, actions: seq<Action>)
      requires Valid() && Kept(config, within) && within(Snapshot())
      requires Lifecycle.Draining(control) && ControlHolds(control) && NoControl(actions)
      modifies this, taskQueue, taskQueue.ring, taskQueue.ring.elems
      ensures Valid() && taskQueue.ring.elems == old(taskQueue.ring.elems)
      ensures within(Snapshot()) && DrainKept(old(Snapshot()), Snapshot())
    {
      LetOthersDrainWithin(config, within, Snapshot(), actions);
      PerformAll(actions);
    }

    /** The loop of forceStop. `others(k)` is what everybody else does before its k-th access to
        shared state: they may push, block, report, retire; the loop ends all the same. */
    method DrainQueue(ghost within: Pool -> bool, others: nat -> seq<Action>)
      requires Valid() && Kept(config, within) && within(Snapshot())
      requires control == Drain && lock == Controller
      requires forall k :: NoControl(others(k))
      modifies this, taskQueue, taskQueue.ring, taskQueue.ring.elems
      ensures Valid() && within(Snapshot())
      ensures control == StopBalancer && lock == Free && Snapshot().q.ring.items == []
      ensures |past.abandoned| <= |old(past.abandoned)| + old(Drainable(Snapshot()))
    {
      ghost var limit := |past.abandoned| + Drainable(Snapshot());
      var k := 0;
      DrainLooks(config, within, Snapshot());
      var more := CheckDrained(false);
      while more
        invariant Valid() && taskQueue.ring.elems == old(taskQueue.ring.elems) && within(Snapshot())
        invariant if more then control == DrainDequeue && lock == Controller
                  else control == StopBalancer && lock == Free && Snapshot().q.ring.items == []
        invariant |past.abandoned| + Drainable(Snapshot()) <= limit
        decreases Drainable(Snapshot())
      {
        more := DrainOne(within, others, k);
        k := k + 5;
      }
    }

    /** One round: dequeue, abandon, count it out, count it as failed, look again. */
    method DrainOne(ghost within: Pool -> bool, others: nat -> seq<Action>, k: nat) returns (more: bool)
      requires Valid() && Kept(config, within)
      requires within(Snapshot()) && control == DrainDequeue && lock == Controller
      requires forall n :: NoControl(others(n))
      modifies this, taskQueue, taskQueue.ring, taskQueue.ring.elems
      ensures Valid() && taskQueue.ring.elems == old(taskQueue.ring.elems) && within(Snapshot())
      ensures if more then control == DrainDequeue && lock == Controller
              else control == StopBalancer && lock == Free && Snapshot().q.ring.items == []
      ensures Drainable(Snapshot()) < old(Drainable(Snapshot()))
      ensures |past.abandoned| == |old(past.abandoned)| + 1
    {
      TakeAndAbandon(within, others(k), others(k + 1));
      CountOut(within, others(k + 2), others(k + 3));
      more := LookAgain(within, others(k + 4));
    }

    method LookAgain(ghost within: Pool -> bool, others: seq<Action>) returns (more: bool)
      requires Valid() && Kept(config, within) && within(Snapshot()) && control == Drain && lock == Controller
      requires NoControl(others)
      modifies this, taskQueue, taskQueue.ring, taskQueue.ring.elems
      ensures Valid() && taskQueue.ring.elems == old(taskQueue.ring.elems) && within(Snapshot())
      ensures if more then control == DrainDequeue && lock == Controller
              else control == StopBalancer && lock == Free && Snapshot().q.ring.items == []
      ensures Drainable(Snapshot()) <= old(Drainable(Snapshot()))
      ensures |past.abandoned| == |old(past.abandoned)|
    {
      LetOthersDrain(within, others);
      DrainLooks(config, within, Snapshot());
      more := CheckDrained(false);
    }

    method CountOut(ghost within: Pool -> bool, first: seq<Action>, second: seq<Action>)
      requires Valid() && Kept(config, within)
      requires within(Snapshot()) && control == DrainUncount && lock == Controller
      requires NoControl(first) && NoControl(second)
      modifies this, taskQueue, taskQueue.ring, taskQueue.ring.elems
      ensures Valid() && taskQueue.ring.elems == old(taskQueue.ring.elems) && within(Snapshot())
      ensures control == Drain && lock == Controller
      ensures Drainable(Snapshot()) <= old(Drainable(Snapshot()))
      ensures |past.abandoned| == |old(past.abandoned)|
    {
      LetOthersDrain(within, first);
      DrainSettles(config, within, Snapshot());
      UncountDrained(false);
      LetOthersDrain(within, second);
      DrainSettles(config, within, Snapshot());
      FailDrained(false);
    }

    method TakeAndAbandon(ghost within: Pool -> bool, first: seq<Action>, second: seq<Action>)
      requires Valid() && Kept(config, within)
      requires within(Snapshot()) && control == DrainDequeue && lock == Controller
      requires NoControl(first) && NoControl(second)
      modifies this, taskQueue, taskQueue.ring, taskQueue.ring.elems
      ensures Valid() && taskQueue.ring.elems == old(taskQueue.ring.elems) && within(Snapshot())
      ensures control == DrainUncount && lock == Controller
      ensures Drainable(Snapshot()) < old(Drainable(Snapshot()))
      ensures |past.abandoned| == |old(past.abandoned)| + 1
    {
      LetOthersDrain(within, first);
      DrainTakes(config, within, Snapshot());
      DrainTask(false);
      LetOthersDrain(within, second);
      DrainSettles(config, within, Snapshot());
      AbandonTask(false);
    }

    method LetOthersWork(ghost within: Pool -> bool, i: nat, actions: seq<Action>)
      requires Valid() && Kept(config, within) && within(Snapshot())
      requires i < |slots| && Holds(slots[i].pc) && NotWorker(actions, i)
      modifies this, taskQueue, taskQueue.ring, taskQueue.ring.elems
      ensures Valid() && taskQueue.ring.elems == old(taskQueue.ring.elems)
      ensures within(Snapshot()) && WorkerKept(old(Snapshot()), Snapshot(), i)
    {
      LetOthersAdvance(config, within, Snapshot(), actions, i);
      PerformAll(actions);
    }

    /** The others move, and then worker i makes its next step inside queue_mutex_. */
    method Advance(ghost within: Pool -> bool, i: nat, from: WorkerPc, others: seq<Action>) returns (pc: WorkerPc)
      requires Valid() && Kept(config, within) && within(Snapshot())
      requires i < |slots| && slots[i].pc == from && Holds(from)
      requires NotWorker(others, i)
      modifies this, taskQueue, taskQueue.ring, taskQueue.ring.elems
      ensures Valid() && taskQueue.ring.elems == old(taskQueue.ring.elems) && within(Snapshot())
      ensures i < |slots| && slots[i].pc == pc && Follows(from, pc)
      ensures !Holds(pc) ==> lock == Free
      ensures from == Announce ==> control != AsleepWait
    {
      LetOthersWork(within, i, others);
      WorkerAdvances(config, within, Snapshot(), i);
      WorkerTurn(i, true);
      pc := slots[i].pc;
    }

    method AdvanceTwice(ghost within: Pool -> bool, i: nat, from: WorkerPc, mid: WorkerPc,
                        first: seq<Action>, second: seq<Action>)
      returns (pc: WorkerPc)
      requires Valid() && Kept(config, within) && within(Snapshot())
      requires i < |slots| && slots[i].pc == from && Holds(from) && Holds(mid)
      requires NotWorker(first, i) && NotWorker(second, i) && forall to :: Follows(from, to) ==> to == mid
      modifies this, taskQueue, taskQueue.ring, taskQueue.ring.elems
      ensures Valid() && taskQueue.ring.elems == old(taskQueue.ring.elems) && within(Snapshot())
      ensures i < |slots| && slots[i].pc == pc && Follows(mid, pc)
      ensures !Holds(pc) ==> lock == Free
      ensures mid == Announce ==> control != AsleepWait
    {
      pc := Advance(within, i, from, first);
      pc := Advance(within, i, mid, second);
    }

    /** workerLoop from the moment queue_mutex_ is locked until it is given back, with the other
        threads moving before every access: the wait predicate, the checks for a shutdown, the
        queue, and the counters of a task that was taken. Whoever sees a task there gets one:
        dequeue never waits. */
    method TakeTask(ghost within: Pool -> bool, i: nat, others: nat -> seq<Action>) returns (task: CQ.Outcome<Task>)
      requires Valid() && Kept(config, within) && within(Snapshot()) && i < |slots| && slots[i].pc == Looking
      requires forall k :: NotWorker(others(k), i)
      modifies this, taskQueue, taskQueue.ring, taskQueue.ring.elems
      ensures Valid() && within(Snapshot()) && lock == Free && i < |slots|
      ensures task.Ok? ==> slots[i].pc == Executing(task.value)
      ensures task.Failed? ==> slots[i].pc == Asleep || slots[i].pc == Exited || slots[i].pc == Top
    {
      var ready := AwaitTask(within, i, others(0), others(1));
      if !ready {
        return CQ.Failed;
      }
      var some := CheckTask(within, i, others(2), others(3));
      if !some {
        return CQ.Failed;
      }
      task := StartTask(within, i, others, 4);
    }

    /** The predicate of the wait on queue_cv_; false says that the worker has gone to sleep. */
    method AwaitTask(ghost within: Pool -> bool, i: nat, first: seq<Action>, second: seq<Action>)
      returns (ready: bool)
      requires Valid() && Kept(config, within) && within(Snapshot()) && i < |slots| && slots[i].pc == Looking
      requires NotWorker(first, i) && NotWorker(second, i)
      modifies this, taskQueue, taskQueue.ring, taskQueue.ring.elems
      ensures Valid() && taskQueue.ring.elems == old(taskQueue.ring.elems) && within(Snapshot())
      ensures i < |slots| && slots[i].pc == if ready then Checking else Asleep
      ensures !ready ==> lock == Free
    {
      var pc := Advance(within, i, Looking, first);
      if pc == SawEmpty {
        pc := Advance(within, i, SawEmpty, second);
      }
      ready := pc == Checking;
    }

    /** The checks after the wait; false says that the worker leaves or starts over. */
    method CheckTask(ghost within: Pool -> bool, i: nat, first: seq<Action>, second: seq<Action>)
      returns (some: bool)
      requires Valid() && Kept(config, within) && within(Snapshot()) && i < |slots| && slots[i].pc == Checking
      requires NotWorker(first, i) && NotWorker(second, i)
      modifies this, taskQueue, taskQueue.ring, taskQueue.ring.elems
      ensures Valid() && taskQueue.ring.elems == old(taskQueue.ring.elems) && within(Snapshot())
      ensures i < |slots| && (if some then slots[i].pc == Dequeuing else slots[i].pc == Exited || slots[i].pc == Top)
      ensures !some ==> lock == Free
    {
      var pc := Advance(within, i, Checking, first);
      if pc == Taking {
        pc := Advance(within, i, Taking, second);
      }
      some := pc == Dequeuing;
    }

    method StartTask(ghost within: Pool -> bool, i: nat, others: nat -> seq<Action>, k: nat)
      returns (task: CQ.Outcome<Task>)
      requires Valid() && Kept(config, within) && within(Snapshot()) && i < |slots| && slots[i].pc == Dequeuing
      requires forall n :: NotWorker(others(n), i)
      modifies this, taskQueue, taskQueue.ring, taskQueue.ring.elems
      ensures Valid() && within(Snapshot()) && lock == Free && i < |slots|
      ensures task.Ok? && slots[i].pc == Executing(task.value)
    {
      var t := Dequeue(within, i, others(k), others(k + 1));
      CountTask(within, i, t, others(k + 2), others(k + 3));
      task := CQ.Ok(t);
    }

    method Dequeue(ghost within: Pool -> bool, i: nat, first: seq<Action>, second: seq<Action>) returns (t: Task)
      requires Valid() && Kept(config, within) && within(Snapshot()) && i < |slots| && slots[i].pc == Dequeuing
      requires NotWorker(first, i) && NotWorker(second, i)
      modifies this, taskQueue, taskQueue.ring, taskQueue.ring.elems
      ensures Valid() && taskQueue.ring.elems == old(taskQueue.ring.elems) && within(Snapshot())
      ensures i < |slots| && slots[i].pc == Activated(t)
    {
      var pc := Advance(within, i, Dequeuing, first);
      t := pc.t;
      pc := Advance(within, i, Got(t), second);
    }

    method CountTask(ghost within: Pool -> bool, i: nat, t: Task, first: seq<Action>, second: seq<Action>)
      requires Valid() && Kept(config, within) && within(Snapshot()) && i < |slots| && slots[i].pc == Activated(t)
      requires NotWorker(first, i) && NotWorker(second, i)
      modifies this, taskQueue, taskQueue.ring, taskQueue.ring.elems
      ensures Valid() && taskQueue.ring.elems == old(taskQueue.ring.elems) && within(Snapshot())
      ensures i < |slots| && slots[i].pc == Executing(t) && lock == Free
    {
      var pc := AdvanceTwice(within, i, Activated(t), Stamped(t), first, second);
    }

    /** The end of a round of workerLoop, again with the others in between: the counters go down,
        a sleeping waiter is told, the mutex is given back. */
    method FinishTask(ghost within: Pool -> bool, i: nat, others: nat -> seq<Action>)
      requires Valid() && Kept(config, within) && within(Snapshot()) && i < |slots| && slots[i].pc == Uncount
      requires forall k :: NotWorker(others(k), i)
      modifies this, taskQueue, taskQueue.ring, taskQueue.ring.elems
      ensures Valid() && within(Snapshot())
      ensures lock == Free && control != AsleepWait && i < |slots| && slots[i].pc == Top
    {
      UncountTask(within, i, others(0), others(1));
      LeaveQueue(within, i, others(2), others(3));
    }

    method UncountTask(ghost within: Pool -> bool, i: nat, first: seq<Action>, second: seq<Action>)
      requires Valid() && Kept(config, within) && within(Snapshot()) && i < |slots| && slots[i].pc == Uncount
      requires NotWorker(first, i) && NotWorker(second, i)
      modifies this, taskQueue, taskQueue.ring, taskQueue.ring.elems
      ensures Valid() && taskQueue.ring.elems == old(taskQueue.ring.elems) && within(Snapshot())
      ensures i < |slots| && slots[i].pc == Unactive
    {
      var pc := AdvanceTwice(within, i, Uncount, Unrun, first, second);
    }

    method LeaveQueue(ghost within: Pool -> bool, i: nat, first: seq<Action>, second: seq<Action>)
      requires Valid() && Kept(config, within) && within(Snapshot()) && i < |slots| && slots[i].pc == Unactive
      requires NotWorker(first, i) && NotWorker(second, i)
      modifies this, taskQueue, taskQueue.ring, taskQueue.ring.elems
      ensures Valid() && within(Snapshot())
      ensures lock == Free && control != AsleepWait && i < |slots| && slots[i].pc == Top
    {
      var pc := AdvanceTwice(within, i, Unactive, Announce, first, second);
    }

    method LetOthersManage(ghost within: Pool -> bool, actions: seq<Action>)
      requires Valid() && Kept(config, within) && within(Snapshot()) && manager != Idle && NoManage(actions)
      modifies this, taskQueue, taskQueue.ring, taskQueue.ring.elems
      ensures Valid() && taskQueue.ring.elems == old(taskQueue.ring.elems)
      ensures within(Snapshot()) && ManagerKept(old(Snapshot()), Snapshot())
    {
      LetOthersScan(config, within, Snapshot(), actions);
      PerformAll(actions);
    }

    /** The loop of tryRemoveIdleThread, with workers taking tasks and everything else going on in
        between. It settles on the first unflagged worker whose idle count is high enough when it
        is read, or on none. */
    method ScanIdleWorkers(ghost within: Pool -> bool, others: nat -> seq<Action>, idle: nat -> bool)
      returns (found: bool)
      requires Valid() && Kept(config, within) && within(Snapshot()) && manager == Scan(config.coreThreads)
      requires forall k :: NoManage(others(k))
      modifies this, taskQueue, taskQueue.ring, taskQueue.ring.elems
      ensures Valid() && within(Snapshot())
      ensures found ==> && manager.Retire? && config.coreThreads <= manager.i < size <= |slots|
                        && !slots[manager.i].exitFlag && slots[manager.i].idle >= config.consecutiveIdleCount
      ensures !found ==> manager == Idle
    {
      var i := config.coreThreads;
      found := false;
      while i < size && !found
        invariant Valid() && taskQueue.ring.elems == old(taskQueue.ring.elems) && within(Snapshot())
        invariant config.coreThreads <= i <= size == old(size) && |slots| == |old(slots)|
        invariant manager == if found then Retire(i) else Scan(i)
        invariant found ==> i < size && !slots[i].exitFlag && slots[i].idle >= config.consecutiveIdleCount
        decreases size - i, !found
      {
        found := ScanOne(within, i, others(2 * i), others(2 * i + 1), idle(i));
        if !found {
          i := i + 1;
        }
      }
      if !found {
        EndScan(within);
      }
    }

    method EndScan(ghost within: Pool -> bool)
      requires Valid() && Kept(config, within) && within(Snapshot()) && manager.Scan? && manager.i >= size
      modifies this
      ensures Valid() && within(Snapshot()) && manager == Idle
    {
      ScanEnds(config, within, Snapshot());
      var _ := ScanWorker(true);
    }

    method ScanOne(ghost within: Pool -> bool, i: nat, before: seq<Action>, between: seq<Action>, idle: bool)
      returns (found: bool)
      requires Valid() && Kept(config, within) && within(Snapshot()) && manager == Scan(i) && i < size
      requires NoManage(before) && NoManage(between)
      modifies this, taskQueue, taskQueue.ring, taskQueue.ring.elems
      ensures Valid() && taskQueue.ring.elems == old(taskQueue.ring.elems) && within(Snapshot())
      ensures size == old(size) && |slots| == |old(slots)|
      ensures manager == if found then Retire(i) else Scan(i + 1)
      ensures found ==> i < |slots| && !slots[i].exitFlag && slots[i].idle >= config.consecutiveIdleCount
    {
      var unflagged := LookAtWorker(within, i, before, idle);
      found := false;
      if unflagged {
        found := TestWorker(within, i, between);
      }
    }

    method LookAtWorker(ghost within: Pool -> bool, i: nat, before: seq<Action>, idle: bool)
      returns (unflagged: bool)
      requires Valid() && Kept(config, within) && within(Snapshot())
      requires manager == Scan(i) && i < size && NoManage(before)
      modifies this, taskQueue, taskQueue.ring, taskQueue.ring.elems
      ensures Valid() && taskQueue.ring.elems == old(taskQueue.ring.elems) && within(Snapshot())
      ensures size == old(size) && |slots| == |old(slots)|
      ensures manager == if unflagged then TestIdle(i) else Scan(i + 1)
    {
      LetOthersManage(within, before);
      unflagged := LookNow(within, idle);
    }

    method LookNow(ghost within: Pool -> bool, idle: bool) returns (unflagged: bool)
      requires Valid() && Kept(config, within) && within(Snapshot()) && manager.Scan? && manager.i < size
      modifies this
      ensures Valid() && within(Snapshot()) && size == old(size) && |slots| == |old(slots)|
      ensures manager == if unflagged then TestIdle(old(manager).i) else Scan(old(manager).i + 1)
    {
      ScanLooks(config, within, Snapshot(), idle);
      unflagged := ScanWorker(idle);
    }

    method TestWorker(ghost within: Pool -> bool, i: nat, between: seq<Action>) returns (found: bool)
      requires Valid() && Kept(config, within) && within(Snapshot()) && manager == TestIdle(i) && NoManage(between)
      modifies this, taskQueue, taskQueue.ring, taskQueue.ring.elems
      ensures Valid() && taskQueue.ring.elems == old(taskQueue.ring.elems) && within(Snapshot())
      ensures size == old(size) && |slots| == |old(slots)|
      ensures manager == if found then Retire(i) else Scan(i + 1)
      ensures found ==> i < |slots| && !slots[i].exitFlag && slots[i].idle >= config.consecutiveIdleCount
    {
      LetOthersManage(within, between);
      found := TestNow(within);
    }

    method TestNow(ghost within: Pool -> bool) returns (found: bool)
      requires Valid() && Kept(config, within) && within(Snapshot()) && manager.TestIdle?
      modifies this
      ensures Valid() && within(Snapshot()) && size == old(size) && |slots| == |old(slots)|
      ensures manager == if found then Retire(old(manager).i) else Scan(old(manager).i + 1)
      ensures found ==> manager.i < |slots| && !slots[manager.i].exitFlag
                        && slots[manager.i].idle >= config.consecutiveIdleCount
    {
      ScanTests(config, within, Snapshot());
      found := TestIdleCount(true);
    }

    method LetOthersJoin(ghost within: Pool -> bool, actions: seq<Action>)
      requires Valid() && Kept(config, within) && within(Snapshot()) && control.Join? && NoControl(actions)
      modifies this, taskQueue, taskQueue.ring, taskQueue.ring.elems
      ensures Valid() && taskQueue.ring.elems == old(taskQueue.ring.elems)
      ensures within(Snapshot()) && JoinKept(old(Snapshot()), Snapshot())
    {
      LetOthersEnd(config, within, Snapshot(), actions);
      PerformAll(actions);
    }

    /** The loop of stop that joins the workers. Each join waits while the others go on, one part
        of the schedule after the other; false says that the schedule is over first. */
    method JoinWorkers(ghost within: Pool -> bool, schedule: seq<seq<Action>>) returns (done: bool)
      requires Valid() && Kept(config, within) && within(Snapshot()) && control == Join(0)
      requires forall actions <- schedule :: NoControl(actions)
      modifies this, taskQueue, taskQueue.ring, taskQueue.ring.elems
      ensures Valid() && within(Snapshot())
      ensures done ==> && control == Finish
                       && forall i :: 0 <= i < |slots| ==> slots[i].pc == Exited || slots[i].pc == Absent
      ensures !done ==> control.Join? && control.i < size <= |slots| && slots[control.i].pc != Exited
    {
      var i, k := 0, 0;
      while i < size
        invariant Valid() && taskQueue.ring.elems == old(taskQueue.ring.elems) && within(Snapshot())
        invariant i <= size == old(size) && control == Join(i) && k <= |schedule|
        decreases size - i, |schedule| - k
      {
        if slots[i].joinable && slots[i].pc != Exited {
          if k == |schedule| {
            return false;
          }
          LetOthersJoin(within, schedule[k]);
          k := k + 1;
        } else {
          JoinNext(within);
          i := i + 1;
        }
      }
      EndJoin(within);
      done := true;
    }

    method EndJoin(ghost within: Pool -> bool)
      requires Valid() && Kept(config, within) && within(Snapshot()) && control.Join? && control.i >= size
      modifies this
      ensures Valid() && within(Snapshot()) && control == Finish
      ensures forall i :: 0 <= i < |slots| ==> slots[i].pc == Exited || slots[i].pc == Absent
    {
      JoinNext(within);
      AllJoined(config, within, Snapshot());
    }

    method JoinNext(ghost within: Pool -> bool)
      requires Valid() && Kept(config, within) && within(Snapshot()) && control.Join?
      requires control.i < size ==> !slots[control.i].joinable || slots[control.i].pc == Exited
      modifies this
      ensures Valid() && within(Snapshot()) && size == old(size)
      ensures control == if old(control).i < size then Join(old(control).i + 1) else Finish
    {
      JoinSteps(config, within, Snapshot());
      JoinWorker(false);
    }
  }

  /** makeThreadPool: only a usable configuration gets a pool. */
  method MakeThreadPool(c: Config) returns (v: Verdict, pool: ThreadPool?)
    ensures v.Accepted? <==> Usable(c)
    ensures v.Accepted? ==> pool != null && pool.config == c && pool.Valid() && pool.Snapshot() == Runs.After(c, [])
  {
    v := ValidateConfigBasic(c);
    pool := null;
    if v.Accepted? {
      pool := new ThreadPool(c);
    }
  }
}
