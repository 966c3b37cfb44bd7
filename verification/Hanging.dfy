/** When shutdown(WAIT_ALL) returns, and when it sleeps for ever. */
module Hanging {
  import opened Configs
  import opened Pools
  import opened Steps
  import Tallies
  import Lifecycle
  import SlotTable
  import Locking
  import Accounting
  import Waking
  import opened Shutdowns
  import opened Invariants
  import opened Runs
  import Measures
  import opened Progress
  import LockOrder
  import opened Waiter

  // ----- a waiter that nobody inside the pool can wake -----

  /** No worker and no submit call can move, short of a spurious wake-up. */
  ghost predicate Rests(s: Pool) {
    && (forall i :: 0 <= i < |s.slots| ==> NextWorkerPc(s, s.slots[i], false) == s.slots[i].pc)
    && (forall t, wake :: t in s.submits ==> NextSubmitPc(s, s.submits[t], wake) == s.submits[t])
  }

  /** Nothing is queued, every call has returned, and every worker sleeps or is gone. */
  ghost predicate Deserted(s: Pool) {
    && s.q.ring.items == [] && s.lock == Free && Quiet(s)
    && forall i :: 0 <= i < |s.slots| ==> s.slots[i].pc in {Asleep, Exited, Absent}
  }

  lemma HolderMoves(s: Pool)
    requires Locking.Locked(s)
    ensures s.lock.Worker? ==> NextWorkerPc(s, s.slots[s.lock.i], false) != s.slots[s.lock.i].pc
  {
    if s.lock.Worker? {
      assert Locking.LockOk(s, s.lock.i);
    }
  }

  lemma RestingWorkers(c: Config, s: Pool)
    requires Inv(c, s) && s.control == AsleepWait && Rests(s)
    ensures s.lock == Free
    ensures forall i :: 0 <= i < |s.slots| ==> s.slots[i].pc in {Asleep, Exited, Absent}
  {
    HolderMoves(s);
    forall i | 0 <= i < |s.slots| ensures s.slots[i].pc in {Asleep, Exited, Absent} {
      assert Locking.LockOk(s, i) && NextWorkerPc(s, s.slots[i], false) == s.slots[i].pc;
    }
  }

  lemma RestingSubmits(s: Pool)
    requires Rests(s) && s.lock == Free
    ensures Waking.Unannounced(s.submits) == {}
    ensures forall t :: t in s.submits && s.submits[t] != Done ==> s.q.ring.Full()
  {
    forall t | t in s.submits && s.submits[t] != Done
      ensures s.q.ring.Full() && s.submits[t] != Pushed && s.submits[t] != Counted
    {
      LockOrder.SubmitterBlocked(s, t);
    }
  }

  /** The core worker sleeps, so what is queued has been announced or seen. */
  lemma RestingQueue(c: Config, s: Pool)
    requires Inv(c, s) && s.control == AsleepWait && Rests(s)
    ensures s.q.ring.items == []
  {
    RestingWorkers(c, s);
    RestingSubmits(s);
    assert SlotTable.SlotOk(c, s, 0) && Waking.WakeOk(s, 0);
    Tallies.TallyNone(s.slots, Tallies.Willing);
  }

  /** While the waiter sleeps, nobody can move exactly if there is nothing left to do. */
  lemma RestsIff(c: Config, s: Pool)
    requires Inv(c, s) && s.control == AsleepWait
    ensures Rests(s) <==> Deserted(s)
  {
    if Rests(s) {
      RestingWorkers(c, s);
      RestingSubmits(s);
      RestingQueue(c, s);
    }
  }

  lemma DesertedAccount(s: Pool)
    requires Accounting.Accounted(s) && s.control == AsleepWait && Deserted(s)
    ensures s.pending == s.q.ring.overrun && !Announcing(s)
  {
    Tallies.TallyNone(s.slots, Tallies.Owing);
    Accounting.QuietCounts(s);
  }

  /** In every run: when the waiter sleeps and nobody can move, the pool is deserted and
      pending_tasks_ counts exactly the overwritten tasks: none, and the notification was lost, or
      some, which nobody will ever subtract. If no submit call was in flight as shutdown began it
      is the latter. */
  lemma OverwrittenOrLost(c: Config, actions: seq<Action>)
    requires ValidateConfigBasic(c).Accepted?
    ensures
      var s := After(c, actions);
      s.control == AsleepWait ==>
        && (Rests(s) <==> Deserted(s))
        && (Rests(s) ==> s.pending == s.q.ring.overrun)
        && (Rests(s) && QuietShutdown(s) ==> s.q.ring.overrun > 0)
  {
    var s := After(c, actions);
    if s.control == AsleepWait {
      AfterInv(c, actions);
      RestsIff(c, s);
      if Deserted(s) {
        DesertedAccount(s);
        QuietWaiterIsHeard(c, actions);
      }
    }
  }

  // ----- it stays like that -----

  predicate Busy(pc: WorkerPc) {
    !pc.Absent? && !pc.Exited? && !pc.Asleep? && !pc.Top? && !pc.PauseCheck? && !pc.PauseSpin? && !pc.PauseOver?
    && !pc.WantLock? && !pc.Looking? && !pc.SawEmpty? && !pc.Checking? && !pc.Taking?
  }

  /** There is nothing to do, for workers that sleep and for those that do not. */
  ghost predicate Emptied(s: Pool) {
    && WaitingForAll(s.control) && s.state == ShuttingDown && s.q.ring.items == [] && Quiet(s)
    && forall i :: 0 <= i < |s.slots| ==> !Busy(s.slots[i].pc)
  }

  /** Nobody in an emptied pool touches the counter, and only the waiter itself its position. */
  ghost predicate EmptiedKept(s: Pool, s': Pool) {
    && s'.pending == s.pending && s'.control == s.control && s'.state == s.state && s'.q.ring == s.q.ring
    && s'.submits == s.submits && |s'.slots| == |s.slots|
    && forall i :: 0 <= i < |s.slots| ==> !Busy(s'.slots[i].pc)
  }

  lemma EmptiedWork(s: Pool, i: nat, choice: bool)
    requires s.q.Valid() && Emptied(s) && i < |s.slots|
    ensures EmptiedKept(s, WorkerStep(s, i, choice))
  {
  }

  lemma EmptiedManage(c: Config, s: Pool, choice: bool)
    requires SlotTable.Table(c, s) && Emptied(s)
    ensures EmptiedKept(s, ManagerStep(c, s, choice))
  {
    if NextManagerPc(c, s, choice) != s.manager {
      forall i | 0 <= i < |s.slots| ensures !Busy(ManagerStep(c, s, choice).slots[i].pc) {
        SlotTable.ManagerSameWork(c, s, choice, i);
      }
    }
  }

  lemma EmptiedOthers(c: Config, s: Pool, a: Action)
    requires Shaped(c, s) && Emptied(s) && !a.Work? && !a.Manage? && !a.Control?
    ensures EmptiedKept(s, Next(c, s, a))
  {
  }

  lemma EmptiedControl(c: Config, s: Pool, choice: bool)
    requires Shaped(c, s) && Emptied(s) && (s.pending != 0 || (s.control == AsleepWait && !choice))
    ensures
      var s' := ControlStep(s, choice);
      EmptiedKept(s, s'.(control := s.control)) && WaitingForAll(s'.control)
      && (s.control == AsleepWait && !choice ==> s'.control == AsleepWait)
  {
  }

  predicate WakesWaiter(a: Action) {
    a.Control? && a.choice
  }

  lemma EmptiedStep(c: Config, s: Pool, a: Action)
    requires Inv(c, s) && Emptied(s)
    requires s.pending != 0 || (s.control == AsleepWait && !WakesWaiter(a))
    ensures Emptied(Next(c, s, a)) && Next(c, s, a).pending == s.pending
    ensures s.control == AsleepWait && !WakesWaiter(a) ==> Next(c, s, a).control == AsleepWait
  {
    match a
    case Work(i, choice) => if i < |s.slots| { EmptiedWork(s, i, choice); }
    case Manage(choice) => EmptiedManage(c, s, choice);
    case Control(choice) => EmptiedControl(c, s, choice);
    case _ => EmptiedOthers(c, s, a);
  }

  /** Without a spurious wake-up of its own the waiter sleeps for ever, whatever workers, load
      checks and calls from outside do. */
  lemma {:induction false} SleepsForEver(c: Config, s: Pool, actions: seq<Action>)
    requires Inv(c, s) && Emptied(s) && s.control == AsleepWait && forall a <- actions :: !WakesWaiter(a)
    ensures Execute(c, s, actions).control == AsleepWait
    decreases |actions|
  {
    if actions != [] {
      assert actions[0] in actions && forall a <- actions[1..] :: a in actions;
      EmptiedStep(c, s, actions[0]);
      NextInv(c, s, actions[0]);
      SleepsForEver(c, Next(c, s, actions[0]), actions[1..]);
    }
  }

  /** With a counter that is not zero it never leaves waitForAllTask, spurious wake-ups or not. */
  lemma {:induction false} WaitsForEver(c: Config, s: Pool, actions: seq<Action>)
    requires Inv(c, s) && Emptied(s) && s.pending != 0
    ensures WaitingForAll(Execute(c, s, actions).control)
    decreases |actions|
  {
    if actions != [] {
      EmptiedStep(c, s, actions[0]);
      NextInv(c, s, actions[0]);
      WaitsForEver(c, Next(c, s, actions[0]), actions[1..]);
    }
  }

  /** Once the waiter sleeps and nobody can move, the shutdown does not return: never, if a task
      was overwritten, and otherwise not before the waiter wakes up spuriously. */
  lemma RestsForEver(c: Config, past: seq<Action>, future: seq<Action>)
    requires ValidateConfigBasic(c).Accepted?
    requires After(c, past).control == AsleepWait && Rests(After(c, past))
    ensures
      var s, s' := After(c, past), After(c, past + future);
      && ((forall a <- future :: !WakesWaiter(a)) ==> s'.control == AsleepWait)
      && (s.q.ring.overrun > 0 ==> WaitingForAll(s'.control))
  {
    var s := After(c, past);
    AfterInv(c, past);
    InitialInv(c);
    ExecuteAppend(c, Initial(c), past, future);
    OverwrittenOrLost(c, past);
    if forall a <- future :: !WakesWaiter(a) {
      SleepsForEver(c, s, future);
    }
    if s.q.ring.overrun > 0 {
      WaitsForEver(c, s, future);
    }
  }

  // ----- shutdown(WAIT_ALL) returns, or comes to that -----

  ghost predicate WaitsOrDrives(s: Pool) {
    WaitingForAll(s.control) || Driving(s.control)
  }

  lemma WaitsOrDrivesStays(c: Config, s: Pool, a: Action)
    requires Shaped(c, s) && WaitsOrDrives(s)
    ensures WaitsOrDrives(Next(c, s, a))
  {
    if Driving(s.control) {
      DrivingStays(c, s, a);
    } else {
      WaitingStays(c, s, a);
    }
  }

  lemma WaitingStays(c: Config, s: Pool, a: Action)
    requires Shaped(c, s) && WaitingForAll(s.control)
    ensures WaitingForAll(Next(c, s, a).control) || Next(c, s, a).control == StopBalancer
  {
    match a
    case Work(i, choice) =>
    case Manage(choice) => assert ManagerStep(c, s, choice).control == s.control;
    case Control(choice) =>
    case _ =>
  }

  lemma {:induction false} WaitsOrDrivesThrough(c: Config, s: Pool, actions: seq<Action>)
    requires Inv(c, s) && WaitsOrDrives(s)
    ensures WaitsOrDrives(Execute(c, s, actions))
    decreases |actions|
  {
    if actions != [] {
      NextInv(c, s, actions[0]);
      WaitsOrDrivesStays(c, s, actions[0]);
      WaitsOrDrivesThrough(c, Next(c, s, actions[0]), actions[1..]);
    }
  }

  lemma WorkerMovesOn(c: Config, s: Pool, i: nat)
    requires Shaped(c, s) && i < |s.slots| && NextWorkerPc(s, s.slots[i], false) != s.slots[i].pc
    ensures SomebodyMoves(c, s)
  {
    assert WorkerStep(s, i, false).slots[i].pc != s.slots[i].pc;
    assert MovesOn(c, s, Work(i, false));
  }

  lemma SubmitMovesOn(c: Config, s: Pool, t: Task, wake: nat)
    requires Shaped(c, s) && t in s.submits && NextSubmitPc(s, s.submits[t], wake) != s.submits[t]
    ensures SomebodyMoves(c, s)
  {
    assert SubmitStep(s, t, wake).submits[t] != s.submits[t];
    assert MovesOn(c, s, ContinueSubmit(t, wake));
  }

  lemma ControlMovesOn(c: Config, s: Pool)
    requires Shaped(c, s) && NextControlPc(s, false) != s.control
    ensures SomebodyMoves(c, s)
  {
    assert ControlStep(s, false).control != s.control;
    assert MovesOn(c, s, Control(false));
  }

  lemma WaitMovesOrRests(c: Config, s: Pool)
    requires Inv(c, s) && WaitingForAll(s.control)
    ensures SomebodyMoves(c, s) || (s.control == AsleepWait && Rests(s))
  {
    if i :| 0 <= i < |s.slots| && NextWorkerPc(s, s.slots[i], false) != s.slots[i].pc {
      WorkerMovesOn(c, s, i);
    } else if s.control == AsleepWait {
      if t, wake :| t in s.submits && NextSubmitPc(s, s.submits[t], wake) != s.submits[t] {
        SubmitMovesOn(c, s, t, wake);
      }
    } else {
      HolderMoves(s);
      ControlMovesOn(c, s);
    }
  }

  lemma EndsOrRests(c: Config, s: Pool)
    requires Inv(c, s) && Measures.Ending(s) && WaitsOrDrives(s)
    ensures SomebodyMoves(c, s) || s.control == Returned || (s.control == AsleepWait && Rests(s))
  {
    if Driving(s.control) {
      ReturnedOrMoves(c, s);
    } else {
      WaitMovesOrRests(c, s);
    }
  }

  lemma WaitAllPlace(c: Config, s: Pool)
    requires Inv(c, s) && s.past.shutdowns == 1 && s.past.option == WaitAll
    ensures Lifecycle.Rank(s.state) >= 1 && Measures.Ending(s) && WaitsOrDrives(s)
  {
  }

  /** In every interleaving, whatever calls arrive, the threads make only so many steps after
      shutdown(WAIT_ALL) has begun. When no further one is possible it has returned, or it sleeps
      for ever as above, with only overwritten tasks in pending_tasks_. */
  lemma WaitAllEnds(c: Config, past: seq<Action>, future: seq<Action>)
    requires ValidateConfigBasic(c).Accepted?
    requires After(c, past).past.shutdowns == 1 && After(c, past).past.option == WaitAll
    ensures
      var s, s' := After(c, past), After(c, past + future);
      && AccountOf(c, s, future).moves <= Measures.StepsLeft(c, s) + 6 * AccountOf(c, s, future).wakes
      && (SomebodyMoves(c, s') || s'.control == Returned
          || (s'.control == AsleepWait && Deserted(s') && s'.pending == s'.q.ring.overrun))
  {
    var s := After(c, past);
    AfterInv(c, past);
    AfterInv(c, past + future);
    InitialInv(c);
    ExecuteAppend(c, Initial(c), past, future);
    WaitAllPlace(c, s);
    EndAccount(c, s, future);
    PricedLate(c, s, future);
    WaitsOrDrivesThrough(c, s, future);
    EndsOrRests(c, After(c, past + future));
    OverwrittenOrLost(c, past + future);
  }

  // ----- with no submit call in flight as it begins -----

  lemma QuietStep(c: Config, s: Pool, a: Action)
    requires Shaped(c, s) && Lifecycle.Placed(s) && Quiet(s) && s.past.shutdowns == 1
    ensures Next(c, s, a).q.ring.overrun == s.q.ring.overrun
  {
    match a
    case Work(i, choice) =>
    case Manage(choice) => assert ManagerStep(c, s, choice).q == s.q;
    case Control(choice) =>
    case _ => assert Next(c, s, a).q == s.q;
  }

  lemma {:induction false} QuietOverrun(c: Config, s: Pool, actions: seq<Action>)
    requires Inv(c, s) && QuietWaitAll(s)
    ensures Execute(c, s, actions).q.ring.overrun == s.q.ring.overrun && QuietWaitAll(Execute(c, s, actions))
    decreases |actions|
  {
    if actions != [] {
      NextInv(c, s, actions[0]);
      QuietStep(c, s, actions[0]);
      ShutdownKept(c, s, actions[0]);
      QuietOverrun(c, Next(c, s, actions[0]), actions[1..]);
    }
  }

  lemma ReturnedUnforced(c: Config, s: Pool)
    requires Inv(c, s) && QuietWaitAll(s) && s.control == Returned
    ensures s.q.ring.overrun == 0
  {
  }

  /** shutdown(WAIT_ALL) returns if and only if no task had been overwritten: the threads make only
      so many steps, and when no further one is possible it has returned in the one case and
      sleeps in the other. */
  lemma WaitAllReturnsIff(c: Config, past: seq<Action>, future: seq<Action>)
    requires ValidateConfigBasic(c).Accepted? && QuietWaitAll(After(c, past))
    ensures
      var s, s' := After(c, past), After(c, past + future);
      && AccountOf(c, s, future).moves <= Measures.StepsLeft(c, s) + 6 * AccountOf(c, s, future).wakes
      && (s'.control == Returned ==> s.q.ring.overrun == 0)
      && (!SomebodyMoves(c, s') ==> (s'.control == Returned <==> s.q.ring.overrun == 0))
  {
    AfterInv(c, past);
    AfterInv(c, past + future);
    InitialInv(c);
    ExecuteAppend(c, Initial(c), past, future);
    WaitAllEnds(c, past, future);
    QuietOverrun(c, After(c, past), future);
    var s' := After(c, past + future);
    if s'.control == Returned {
      ReturnedUnforced(c, s');
    } else if s'.control == AsleepWait {
      OverwrittenOrLost(c, past + future);
    }
  }
}
