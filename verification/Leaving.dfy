/** What is still in the queue when stop returns: how workers leave once stopped_ is set, and which
    of them leave tasks behind. */
module Leaving {
  import opened Configs
  import opened Pools
  import opened Steps
  import Lifecycle
  import SlotTable
  import Locking
  import opened Waking
  import Invariants
  import opened Runs
  import BlockingQueues
  import Readings
  import Theorems
  import Switches

  /** How a worker can leave although tasks are queued: through the pause, through its flag, or
      because of a forced shutdown. */
  predicate LeavesTasks(s: Pool, w: Slot) {
    w.pc == PauseOver || (w.pc == Top && w.exitFlag) || (w.pc == Checking && s.state == ForceShutting)
  }

  /** A worker that leaves once stopped_ is set either leaves like that, or it has just seen, under
      queue_mutex_, that the queue is empty. */
  lemma LeavesIff(s: Pool, w: Slot, choice: bool)
    requires s.stopped && w.pc != Exited
    ensures NextWorkerPc(s, w, choice) == Exited
            <==> LeavesTasks(s, w) || (w.pc == Checking && s.q.ring.items == [])
  {
  }

  ghost predicate SomebodyLives(s: Pool) {
    exists i :: 0 <= i < |s.slots| && Live(s.slots[i])
  }

  ghost predicate NobodyElseLives(s: Pool, i: nat) {
    forall j :: 0 <= j < |s.slots| && j != i ==> !Live(s.slots[j])
  }

  /** Whatever is queued has a worker that may still take it. */
  ghost predicate Served(s: Pool) {
    s.q.ring.items == [] || SomebodyLives(s)
  }

  /** The last worker leaves without regard to the queue, or a task is pushed after it has left. */
  ghost predicate Strands(s: Pool, a: Action) {
    || (a.Work? && a.i < |s.slots| && LeavesTasks(s, s.slots[a.i]) && NobodyElseLives(s, a.i)
        && s.q.ring.items != [])
    || (a.ContinueSubmit? && a.t in s.submits && s.submits[a.t].Chosen? && !SomebodyLives(s)
        && s.q.ring.items == [])
  }

  ghost predicate StartsWorker(c: Config, s: Pool, a: Action) {
    Shaped(c, s) && Readings.Starts(c, s, a)
  }

  // ----- one step -----

  lemma WorkServes(s: Pool, i: nat, choice: bool)
    requires s.q.Valid() && Locking.Locked(s) && s.stopped && i < |s.slots|
    ensures Served(WorkerStep(s, i, choice)) <==> Served(s) && !Strands(s, Work(i, choice))
  {
    var s' := WorkerStep(s, i, choice);
    assert Locking.LockOk(s, i);
    if s'.slots[i].pc == Exited != s.slots[i].pc {
      LeavesIff(s, s.slots[i], choice);
      LastLeaves(s, s', i);
    } else if Live(s.slots[i]) {
      assert Live(s'.slots[i]);
      assert !LeavesTasks(s, s.slots[i]);
    } else {
      assert s' == s;
    }
  }

  lemma LastLeaves(s: Pool, s': Pool, i: nat)
    requires i < |s.slots| == |s'.slots| && s'.slots == s.slots[i := s'.slots[i]]
    requires Live(s.slots[i]) && !Live(s'.slots[i])
    ensures SomebodyLives(s) && (SomebodyLives(s') <==> !NobodyElseLives(s, i))
  {
    if j :| 0 <= j < |s.slots| && j != i && Live(s.slots[j]) {
      assert Live(s'.slots[j]);
    }
  }

  lemma SameLives(s: Pool, s': Pool)
    requires |s'.slots| == |s.slots| && forall j :: 0 <= j < |s.slots| ==> (Live(s'.slots[j]) <==> Live(s.slots[j]))
    ensures SomebodyLives(s') <==> SomebodyLives(s)
  {
  }

  lemma SubmitServes(c: Config, s: Pool, t: Task, wake: nat)
    requires Usable(c) && Shaped(c, s)
    ensures Served(SubmitStep(s, t, wake)) <==> Served(s) && !Strands(s, ContinueSubmit(t, wake))
  {
    SameLives(s, SubmitStep(s, t, wake));
  }

  lemma ManageServes(c: Config, s: Pool, choice: bool)
    requires SlotTable.Table(c, s)
    ensures Served(ManagerStep(c, s, choice)) <==> Served(s) || StartsWorker(c, s, Manage(choice))
  {
    var s' := ManagerStep(c, s, choice);
    var pc := NextManagerPc(c, s, choice);
    if StartsThread(s.manager, pc) {
      assert Live(s'.slots[Target(s)]);
    } else {
      forall j | 0 <= j < |s.slots| ensures Live(s'.slots[j]) <==> Live(s.slots[j]) {
        ManageLives(c, s, choice, j);
      }
      SameLives(s, s');
    }
  }

  lemma ManageLives(c: Config, s: Pool, choice: bool, j: nat)
    requires SlotTable.Table(c, s) && j < |s.slots| && !StartsThread(s.manager, NextManagerPc(c, s, choice))
    ensures Live(ManagerStep(c, s, choice).slots[j]) <==> Live(s.slots[j])
  {
    if NextManagerPc(c, s, choice) != s.manager {
      ManagedLives(s, NextManagerPc(c, s, choice), choice, j);
    }
  }

  lemma ManagedLives(s: Pool, pc: ManagerPc, choice: bool, j: nat)
    requires j < |s.slots| && !StartsThread(s.manager, pc)
    ensures Live(ManagedSlots(s, pc, choice)[j]) <==> Live(s.slots[j])
  {
  }

  lemma ControlServes(s: Pool, choice: bool)
    requires s.q.Valid() && s.size <= |s.slots| && Lifecycle.Placed(s) && s.stopped
    ensures Served(ControlStep(s, choice)) <==> Served(s)
  {
    SameLives(s, ControlStep(s, choice));
  }

  lemma OthersServe(c: Config, s: Pool, a: Action)
    requires Shaped(c, s) && (Aside(a) || a.BeginSubmit?)
    ensures Served(Next(c, s, a)) <==> Served(s)
  {
    var s' := Next(c, s, a);
    assert s'.slots == s.slots && s'.q == s.q;
  }

  /** Once stopped_ is set the tasks in the queue lose their last worker in exactly these steps, and
      get one again exactly when a thread that was being created starts after all. */
  lemma ServedIff(c: Config, s: Pool, a: Action)
    requires Invariants.Inv(c, s) && s.stopped
    ensures Served(Next(c, s, a)) <==> StartsWorker(c, s, a) || (Served(s) && !Strands(s, a))
    ensures !(StartsWorker(c, s, a) && Strands(s, a))
  {
    match a
    case Work(i, choice) => if i < |s.slots| { WorkServes(s, i, choice); }
    case ContinueSubmit(t, wake) => SubmitServes(c, s, t, wake);
    case Manage(choice) => ManageServes(c, s, choice);
    case Control(choice) => ControlServes(s, choice);
    case _ => OthersServe(c, s, a);
  }

  // ----- whole runs -----

  ghost function ServedAt(c: Config, past: seq<Action>, future: seq<Action>): (r: seq<bool>)
    requires ValidateConfigBasic(c).Accepted?
    ensures |r| == |future| + 1
    ensures forall k :: 0 <= k <= |future| ==> r[k] == Served(After(c, past + future[..k]))
  {
    seq(|future| + 1, k requires 0 <= k <= |future| => Served(After(c, past + future[..k])))
  }

  ghost function StrandsAt(c: Config, past: seq<Action>, future: seq<Action>): (r: seq<bool>)
    requires ValidateConfigBasic(c).Accepted?
    ensures |r| == |future|
    ensures forall k :: 0 <= k < |future| ==> r[k] == Strands(After(c, past + future[..k]), future[k])
  {
    seq(|future|, k requires 0 <= k < |future| => Strands(After(c, past + future[..k]), future[k]))
  }

  ghost function StartsAt(c: Config, past: seq<Action>, future: seq<Action>): (r: seq<bool>)
    requires ValidateConfigBasic(c).Accepted?
    ensures |r| == |future|
    ensures forall k :: 0 <= k < |future| ==> r[k] == StartsWorker(c, After(c, past + future[..k]), future[k])
  {
    seq(|future|, k requires 0 <= k < |future| => StartsWorker(c, After(c, past + future[..k]), future[k]))
  }

  lemma StopIsFinal(c: Config, s: Pool, a: Action)
    requires Shaped(c, s) && s.stopped
    ensures Next(c, s, a).stopped
  {
  }

  lemma {:induction false} StaysStopped(c: Config, past: seq<Action>, future: seq<Action>)
    requires ValidateConfigBasic(c).Accepted? && After(c, past).stopped
    ensures After(c, past + future).stopped
    decreases |future|
  {
    if future == [] {
      assert past + future == past;
    } else {
      var n := |future| - 1;
      StaysStopped(c, past, future[..n]);
      assert past + future == past + future[..n] + [future[n]];
      AfterStep(c, past + future[..n], future[n]);
      StopIsFinal(c, After(c, past + future[..n]), future[n]);
    }
  }

  lemma ServedNext(c: Config, actions: seq<Action>, a: Action)
    requires ValidateConfigBasic(c).Accepted? && After(c, actions).stopped
    ensures
      var s := After(c, actions);
      && (Served(After(c, actions + [a])) <==> StartsWorker(c, s, a) || (Served(s) && !Strands(s, a)))
      && !(StartsWorker(c, s, a) && Strands(s, a))
  {
    AfterInv(c, actions);
    ServedIff(c, After(c, actions), a);
    AfterStep(c, actions, a);
  }

  lemma ServedStep(c: Config, past: seq<Action>, future: seq<Action>, k: nat)
    requires ValidateConfigBasic(c).Accepted? && After(c, past).stopped && k < |future|
    ensures Switches.Switched(ServedAt(c, past, future), StartsAt(c, past, future), StrandsAt(c, past, future), k)
  {
    StaysStopped(c, past, future[..k]);
    ServedNext(c, past + future[..k], future[k]);
    assert past + future[..k + 1] == past + future[..k] + [future[k]];
  }

  lemma NobodyServes(c: Config, s: Pool)
    requires Invariants.Inv(c, s) && s.control == Returned
    ensures Served(s) <==> s.q.ring.items == []
  {
    Theorems.NobodyLeft(c, s);
  }

  /** From a point at which stopped_ is set: stop returns with tasks in the queue if and only if the
      last worker left them there, or a task was pushed after it had left, and no worker started
      since; or that was so to begin with. */
  lemma StopLeavesTasksIff(c: Config, past: seq<Action>, future: seq<Action>)
    requires ValidateConfigBasic(c).Accepted? && After(c, past).stopped
    requires After(c, past + future).control == Returned
    ensures
      var strands, starts := StrandsAt(c, past, future), StartsAt(c, past, future);
      After(c, past + future).q.ring.items != []
      <==> (exists k :: 0 <= k < |future| && strands[k] && Switches.Stays(starts, k + 1))
           || (!Served(After(c, past)) && Switches.Stays(starts, 0))
  {
    var served, strands, starts := ServedAt(c, past, future), StrandsAt(c, past, future), StartsAt(c, past, future);
    forall k | 0 <= k < |future| ensures Switches.Switched(served, starts, strands, k) {
      ServedStep(c, past, future, k);
    }
    Switches.DarkIff(served, starts, strands);
    assert past + future[..0] == past && future[..|future|] == future;
    AfterInv(c, past + future);
    NobodyServes(c, After(c, past + future));
  }

  // ----- stop, called directly or by a shutdown that was not forced -----

  /** The step that sets stopped_ is due, and the shutdown was not forced. */
  ghost predicate SetsStopped(c: Config, s: Pool) {
    Invariants.Inv(c, s) && s.control == StopWorkers && s.lock == Free && !s.past.forced
  }

  /** The core workers are then still there. */
  lemma ServedAtStop(c: Config, s: Pool)
    requires SetsStopped(c, s)
    ensures ControlStep(s, false).stopped && Served(ControlStep(s, false))
    ensures ControlStep(s, false).past.abandoned == []
  {
    assert SlotTable.SlotOk(c, s, 0);
    assert Live(ControlStep(s, false).slots[0]);
  }

  lemma UnforcedStays(c: Config, s: Pool, a: Action)
    requires Shaped(c, s) && Lifecycle.Placed(s) && s.stopped
    ensures Next(c, s, a).past.abandoned == s.past.abandoned
  {
  }

  lemma {:induction false} NothingAbandoned(c: Config, past: seq<Action>, future: seq<Action>)
    requires ValidateConfigBasic(c).Accepted? && After(c, past).stopped
    ensures After(c, past + future).past.abandoned == After(c, past).past.abandoned
    decreases |future|
  {
    if future == [] {
      assert past + future == past;
    } else {
      var n := |future| - 1;
      NothingAbandoned(c, past, future[..n]);
      StaysStopped(c, past, future[..n]);
      AfterInv(c, past + future[..n]);
      assert past + future == past + future[..n] + [future[n]];
      AfterStep(c, past + future[..n], future[n]);
      UnforcedStays(c, After(c, past + future[..n]), future[n]);
    }
  }

  /** A step in which the last worker left tasks queued, or a task was pushed when all workers had
      left, and no worker started after it. */
  ghost predicate TasksLeft(c: Config, start: seq<Action>, future: seq<Action>)
    requires ValidateConfigBasic(c).Accepted?
  {
    var strands, starts := StrandsAt(c, start, future), StartsAt(c, start, future);
    exists k :: 0 <= k < |future| && strands[k] && Switches.Stays(starts, k + 1)
  }

  lemma NextAtStop(c: Config, s: Pool)
    requires SetsStopped(c, s)
    ensures
      var s' := Next(c, s, Control(false));
      s'.stopped && Served(s') && s'.past.abandoned == []
  {
    ServedAtStop(c, s);
  }

  lemma StartsServed(c: Config, past: seq<Action>)
    requires ValidateConfigBasic(c).Accepted? && SetsStopped(c, After(c, past))
    ensures
      var s := After(c, past + [Control(false)]);
      s.stopped && Served(s) && s.past.abandoned == []
  {
    NextAtStop(c, After(c, past));
    AfterStep(c, past, Control(false));
  }

  lemma ServedQueue(c: Config, start: seq<Action>, future: seq<Action>)
    requires ValidateConfigBasic(c).Accepted? && After(c, start).stopped && Served(After(c, start))
    requires After(c, start + future).control == Returned
    ensures After(c, start + future).q.ring.items != [] <==> TasksLeft(c, start, future)
  {
    StopLeavesTasksIff(c, start, future);
  }

  /** stop, when nothing is forced: it abandons nothing, and what was not executed was overwritten
      or stays in the queue. The queue is empty as it returns if and only if in no step the last
      worker left through the pause or its flag with tasks queued, nor a task was pushed when all
      workers had left, without a worker starting after that. */
  lemma UnforcedStop(c: Config, past: seq<Action>, future: seq<Action>)
    requires ValidateConfigBasic(c).Accepted? && SetsStopped(c, After(c, past))
    requires After(c, past + [Control(false)] + future).control == Returned
    ensures
      var start := past + [Control(false)];
      var s' := After(c, start + future);
      && (s'.q.ring.items == [] <==> !TasksLeft(c, start, future))
      && s'.past.abandoned == [] && s'.failed == s'.past.failures
      && multiset(s'.past.executed) + multiset(BlockingQueues.Lost(s'.q.removed)) + multiset(s'.q.ring.items)
         == multiset(s'.q.pushed)
      && s'.succeeded + s'.failed + s'.q.ring.overrun + |s'.q.ring.items| == |s'.q.pushed|
  {
    StartsServed(c, past);
    ServedQueue(c, past + [Control(false)], future);
    NothingAbandoned(c, past + [Control(false)], future);
    Theorems.ReturnedAccount(c, past + [Control(false)] + future);
    NoneAdded(After(c, past + [Control(false)] + future));
  }

  lemma NoneAdded(s: Pool)
    requires s.past.abandoned == []
    ensures s.past.executed + s.past.abandoned == s.past.executed
  {
  }
}
