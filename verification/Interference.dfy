/** What the other threads can and cannot change while one thread is between two of its steps. */
module Interference {
  import opened Configs
  import opened Pools
  import opened Steps
  import Lifecycle
  import SlotTable
  import opened Locking
  import Limits
  import opened Invariants
  import opened Runs
  import opened DrainLoop

  /** A set of pools that satisfy the invariant and that no step leads out of, such as those
      that can still be reached from a given one. */
  ghost predicate Kept(c: Config, within: Pool -> bool) {
    && (forall s {:trigger Inv(c, s)} :: within(s) ==> Inv(c, s))
    && (forall s, a {:trigger Next(c, s, a)} :: Inv(c, s) && within(s) ==> within(Next(c, s, a)))
  }

  lemma InvIsKept(c: Config)
    ensures Kept(c, s => Inv(c, s))
  {
    forall s, a {:trigger Next(c, s, a)} | Inv(c, s) ensures Inv(c, Next(c, s, a)) {
      NextInv(c, s, a);
    }
  }

  lemma Within(c: Config, within: Pool -> bool, s: Pool)
    requires Kept(c, within) && within(s)
    ensures Inv(c, s)
  {
  }

  lemma StaysWithin(c: Config, within: Pool -> bool, s: Pool, a: Action)
    requires Kept(c, within) && within(s)
    ensures Inv(c, s) && within(Next(c, s, a))
  {
  }

  lemma {:induction false} RunStaysWithin(c: Config, within: Pool -> bool, s: Pool, actions: seq<Action>)
    requires Kept(c, within) && within(s)
    ensures Inv(c, s) && within(Execute(c, s, actions))
    decreases |actions|
  {
    Within(c, within, s);
    if actions != [] {
      var next := StepsWithin(c, within, s, actions);
      RunStaysWithin(c, within, next, actions[1..]);
    }
  }

  lemma StepsWithin(c: Config, within: Pool -> bool, s: Pool, actions: seq<Action>) returns (next: Pool)
    requires Kept(c, within) && within(s) && Inv(c, s) && actions != []
    ensures within(next) && Shaped(c, next) && Execute(c, s, actions) == Execute(c, next, actions[1..])
  {
    next := Next(c, s, actions[0]);
    NextInv(c, s, actions[0]);
  }

  // ----- the thread inside forceStop -----

  ghost predicate NoControl(actions: seq<Action>) {
    forall a <- actions :: !a.Control?
  }

  /** While the drain holds queue_mutex_ its position, its books and the state stay as they are,
      and the tasks it may still meet do not get more. */
  ghost predicate DrainKept(s: Pool, s': Pool) {
    && s'.control == s.control && s'.lock == s.lock && s'.state == s.state
    && s'.past.abandoned == s.past.abandoned
    && Drainable(s') <= Drainable(s)
  }

  lemma DrainKeptStep(c: Config, s: Pool, a: Action)
    requires Shaped(c, s) && Locked(s)
    requires Lifecycle.Draining(s.control) && ControlHolds(s.control) && s.state == ForceShutting
    requires !a.Control?
    ensures DrainKept(s, Next(c, s, a))
  {
    DrainShrinks(c, s, a);
    match a
    case Work(i, choice) => if i < |s.slots| { WorkKeepsDrain(s, i, choice); }
    case _ =>
  }

  lemma WorkKeepsDrain(s: Pool, i: nat, choice: bool)
    requires s.q.Valid() && Locked(s) && i < |s.slots| && ControlHolds(s.control)
    ensures
      var s' := WorkerStep(s, i, choice);
      && s'.control == s.control && s'.lock == s.lock && s'.state == s.state
      && s'.past.abandoned == s.past.abandoned
  {
    assert LockOk(s, i);
  }

  lemma {:induction false} DrainKeptThrough(c: Config, s: Pool, actions: seq<Action>)
    requires Inv(c, s) && Lifecycle.Draining(s.control) && ControlHolds(s.control) && NoControl(actions)
    ensures DrainKept(s, Execute(c, s, actions))
    decreases |actions|
  {
    if actions != [] {
      var next := DrainKeptFirst(c, s, actions);
      DrainKeptThrough(c, next, actions[1..]);
    }
  }

  lemma DrainKeptFirst(c: Config, s: Pool, actions: seq<Action>) returns (next: Pool)
    requires Inv(c, s) && Lifecycle.Draining(s.control)
    requires ControlHolds(s.control) && NoControl(actions) && actions != []
    ensures Inv(c, next) && DrainKept(s, next) && Execute(c, s, actions) == Execute(c, next, actions[1..])
    ensures NoControl(actions[1..])
  {
    next := Next(c, s, actions[0]);
    NextInv(c, s, actions[0]);
    assert actions[0] in actions && forall a <- actions[1..] :: a in actions;
    DrainKeptStep(c, s, actions[0]);
  }

  lemma DrainTakes(c: Config, within: Pool -> bool, s: Pool)
    requires Kept(c, within) && within(s) && Shaped(c, s) && s.control == DrainDequeue && s.lock == Controller
    ensures
      var s' := ControlStep(s, false);
      && Inv(c, s) && within(s') && s'.control.DrainGot? && s'.lock == Controller
      && s'.past.abandoned == s.past.abandoned && Drainable(s') < Drainable(s)
  {
    StaysWithin(c, within, s, Control(false));
    DrainShrinks(c, s, Control(false));
  }

  lemma DrainSettles(c: Config, within: Pool -> bool, s: Pool)
    requires Kept(c, within) && within(s) && Shaped(c, s) && s.lock == Controller
    requires s.control.DrainGot? || s.control == DrainUncount || s.control == DrainFail
    ensures
      var s' := ControlStep(s, false);
      && Inv(c, s) && within(s') && s'.lock == Controller && Drainable(s') <= Drainable(s)
      && s'.control == (if s.control.DrainGot? then DrainUncount
                        else if s.control == DrainUncount then DrainFail
                        else Drain)
      && |s'.past.abandoned| == |s.past.abandoned| + (if s.control.DrainGot? then 1 else 0)
  {
    StaysWithin(c, within, s, Control(false));
    DrainShrinks(c, s, Control(false));
  }

  lemma DrainLooks(c: Config, within: Pool -> bool, s: Pool)
    requires Kept(c, within) && within(s) && Shaped(c, s) && s.control == Drain && s.lock == Controller
    ensures
      var s' := ControlStep(s, false);
      && Inv(c, s) && within(s') && Drainable(s') <= Drainable(s) && s'.past.abandoned == s.past.abandoned
      && if s'.control == DrainDequeue then s'.lock == Controller
         else s'.control == StopBalancer && s'.lock == Free && s'.q.ring.items == []
  {
    StaysWithin(c, within, s, Control(false));
    DrainShrinks(c, s, Control(false));
  }

  lemma LetOthersDrainWithin(c: Config, within: Pool -> bool, s: Pool, actions: seq<Action>)
    requires Kept(c, within) && within(s)
    requires Lifecycle.Draining(s.control) && ControlHolds(s.control) && NoControl(actions)
    ensures Inv(c, s) && within(Execute(c, s, actions)) && DrainKept(s, Execute(c, s, actions))
  {
    Within(c, within, s);
    DrainKeptThrough(c, s, actions);
    RunStaysWithin(c, within, s, actions);
  }

  // ----- a worker that holds queue_mutex_ -----

  ghost predicate NotWorker(actions: seq<Action>, i: nat) {
    forall a <- actions :: !(a.Work? && a.i == i)
  }

  ghost predicate WorkerKept(s: Pool, s': Pool, i: nat) {
    && i < |s.slots| == |s'.slots|
    && s'.slots[i].pc == s.slots[i].pc && s'.lock == s.lock
    && (s.q.ring.items != [] ==> s'.q.ring.items != [])
  }

  lemma WorkKeepsWorker(s: Pool, j: nat, choice: bool, i: nat)
    requires s.q.Valid() && Locked(s) && i < |s.slots| && j < |s.slots| && j != i && Holds(s.slots[i].pc)
    ensures WorkerKept(s, WorkerStep(s, j, choice), i)
  {
    assert LockOk(s, i) && LockOk(s, j);
  }

  lemma ManageKeepsWorker(c: Config, s: Pool, choice: bool, i: nat)
    requires SlotTable.Table(c, s) && i < |s.slots| && Holds(s.slots[i].pc)
    ensures WorkerKept(s, ManagerStep(c, s, choice), i)
  {
    if NextManagerPc(c, s, choice) != s.manager {
      SlotTable.ManagerSameWork(c, s, choice, i);
    }
  }

  lemma ControlKeepsWorker(s: Pool, choice: bool, i: nat)
    requires s.q.Valid() && s.size <= |s.slots| && Locked(s) && i < |s.slots| && Holds(s.slots[i].pc)
    ensures WorkerKept(s, ControlStep(s, choice), i)
  {
    assert LockOk(s, i);
  }

  lemma SubmitKeepsWorker(s: Pool, t: Task, wake: nat, i: nat)
    requires s.q.Valid() && i < |s.slots| && Holds(s.slots[i].pc)
    ensures WorkerKept(s, SubmitStep(s, t, wake), i)
  {
  }

  lemma WorkerKeptStep(c: Config, s: Pool, a: Action, i: nat)
    requires SlotTable.Table(c, s) && Locked(s) && i < |s.slots| && Holds(s.slots[i].pc)
    requires !(a.Work? && a.i == i)
    ensures WorkerKept(s, Next(c, s, a), i)
  {
    match a
    case Work(j, choice) => if j < |s.slots| { WorkKeepsWorker(s, j, choice, i); }
    case ContinueSubmit(t, wake) => SubmitKeepsWorker(s, t, wake, i);
    case Manage(choice) => ManageKeepsWorker(c, s, choice, i);
    case Control(choice) => ControlKeepsWorker(s, choice, i);
    case _ =>
  }

  lemma {:induction false} WorkerKeptThrough(c: Config, s: Pool, actions: seq<Action>, i: nat)
    requires Inv(c, s) && i < |s.slots| && Holds(s.slots[i].pc) && NotWorker(actions, i)
    ensures WorkerKept(s, Execute(c, s, actions), i)
    decreases |actions|
  {
    if actions != [] {
      var next := WorkerKeptFirst(c, s, actions, i);
      WorkerKeptThrough(c, next, actions[1..], i);
    }
  }

  lemma WorkerKeptFirst(c: Config, s: Pool, actions: seq<Action>, i: nat) returns (next: Pool)
    requires Inv(c, s) && i < |s.slots| && Holds(s.slots[i].pc) && NotWorker(actions, i) && actions != []
    ensures Inv(c, next) && WorkerKept(s, next, i) && Execute(c, s, actions) == Execute(c, next, actions[1..])
    ensures NotWorker(actions[1..], i)
  {
    next := Next(c, s, actions[0]);
    NextInv(c, s, actions[0]);
    assert actions[0] in actions && forall a <- actions[1..] :: a in actions;
    WorkerKeptStep(c, s, actions[0], i);
  }

  /** How a worker goes on inside queue_mutex_. */
  predicate Follows(from: WorkerPc, to: WorkerPc) {
    match from
    case Looking => to == Checking || to == SawEmpty
    case SawEmpty => to == Checking || to == Asleep
    case Checking => to == Taking || to == Exited
    case Taking => to == Dequeuing || to == Top
    case Dequeuing => to.Got?
    case Got(t) => to == Activated(t)
    case Activated(t) => to == Stamped(t)
    case Stamped(t) => to == Executing(t)
    case Uncount => to == Unrun
    case Unrun => to == Unactive
    case Unactive => to == Announce
    case Announce => to == Top
    case _ => false
  }

  /** One step of a worker inside queue_mutex_. It never has to wait there. */
  lemma WorkerAdvances(c: Config, within: Pool -> bool, s: Pool, i: nat)
    requires Kept(c, within) && within(s) && Shaped(c, s) && i < |s.slots| && Holds(s.slots[i].pc)
    ensures
      var s' := WorkerStep(s, i, true);
      && Inv(c, s) && within(s') && |s'.slots| == |s.slots| && Follows(s.slots[i].pc, s'.slots[i].pc)
      && (!Holds(s'.slots[i].pc) ==> s'.lock == Free)
      && (s.slots[i].pc.Announce? ==> s'.control != AsleepWait)
  {
    StaysWithin(c, within, s, Work(i, true));
    assert LockOk(s, i);
    WorkerAdvancesFacts(s, i);
  }

  lemma WorkerAdvancesFacts(s: Pool, i: nat)
    requires s.q.Valid() && i < |s.slots| && LockOk(s, i) && Holds(s.slots[i].pc)
    ensures
      var s' := WorkerStep(s, i, true);
      && |s'.slots| == |s.slots| && Follows(s.slots[i].pc, s'.slots[i].pc)
      && (!Holds(s'.slots[i].pc) ==> s'.lock == Free)
      && (s.slots[i].pc.Announce? ==> s'.control != AsleepWait)
  {
  }

  /** The others move first. */
  lemma LetOthersAdvance(c: Config, within: Pool -> bool, s: Pool, others: seq<Action>, i: nat)
    requires Kept(c, within) && within(s) && i < |s.slots| && Holds(s.slots[i].pc) && NotWorker(others, i)
    ensures Inv(c, s) && within(Execute(c, s, others)) && WorkerKept(s, Execute(c, s, others), i)
  {
    Within(c, within, s);
    WorkerKeptThrough(c, s, others, i);
    RunStaysWithin(c, within, s, others);
  }

  // ----- the thread that holds worker_access_mutex_ -----

  ghost predicate NoManage(actions: seq<Action>) {
    forall a <- actions :: !a.Manage?
  }

  ghost predicate ManagerKept(s: Pool, s': Pool) {
    && s'.manager == s.manager && s'.size == s.size && |s'.slots| == |s.slots|
    && forall i :: 0 <= i < |s.slots| ==> s'.slots[i].exitFlag == s.slots[i].exitFlag
  }

  lemma ManagerKeptStep(c: Config, s: Pool, a: Action)
    requires SlotTable.Table(c, s) && s.manager != Idle && !a.Manage?
    ensures ManagerKept(s, Next(c, s, a))
  {
  }

  lemma {:induction false} ManagerKeptThrough(c: Config, s: Pool, actions: seq<Action>)
    requires Inv(c, s) && s.manager != Idle && NoManage(actions)
    ensures ManagerKept(s, Execute(c, s, actions))
    decreases |actions|
  {
    if actions != [] {
      var next := ManagerKeptFirst(c, s, actions);
      ManagerKeptThrough(c, next, actions[1..]);
    }
  }

  lemma ManagerKeptFirst(c: Config, s: Pool, actions: seq<Action>) returns (next: Pool)
    requires Inv(c, s) && s.manager != Idle && NoManage(actions) && actions != []
    ensures Inv(c, next) && ManagerKept(s, next) && Execute(c, s, actions) == Execute(c, next, actions[1..])
    ensures NoManage(actions[1..])
  {
    next := Next(c, s, actions[0]);
    NextInv(c, s, actions[0]);
    assert actions[0] in actions && forall a <- actions[1..] :: a in actions;
    ManagerKeptStep(c, s, actions[0]);
  }

  lemma LetOthersScan(c: Config, within: Pool -> bool, s: Pool, others: seq<Action>)
    requires Kept(c, within) && within(s) && s.manager != Idle && NoManage(others)
    ensures Inv(c, s) && within(Execute(c, s, others)) && ManagerKept(s, Execute(c, s, others))
  {
    Within(c, within, s);
    ManagerKeptThrough(c, s, others);
    RunStaysWithin(c, within, s, others);
  }

  lemma ScanLooks(c: Config, within: Pool -> bool, s: Pool, idle: bool)
    requires Kept(c, within) && within(s) && Shaped(c, s) && s.manager.Scan? && s.manager.i < s.size
    ensures
      var s' := ManagerStep(c, s, idle);
      && Inv(c, s) && within(s') && s'.size == s.size && |s'.slots| == |s.slots|
      && s'.manager == (if s.slots[s.manager.i].exitFlag then Scan(s.manager.i + 1) else TestIdle(s.manager.i))
  {
    StaysWithin(c, within, s, Manage(idle));
  }

  lemma ScanEnds(c: Config, within: Pool -> bool, s: Pool)
    requires Kept(c, within) && within(s) && Shaped(c, s) && s.manager.Scan? && s.manager.i >= s.size
    ensures Inv(c, s) && within(ManagerStep(c, s, true)) && ManagerStep(c, s, true).manager == Idle
  {
    StaysWithin(c, within, s, Manage(true));
  }

  lemma ScanTests(c: Config, within: Pool -> bool, s: Pool)
    requires Kept(c, within) && within(s) && Shaped(c, s) && s.manager.TestIdle?
    ensures
      var s' := ManagerStep(c, s, true);
      var i := s.manager.i;
      && Inv(c, s) && within(s') && s'.size == s.size && s'.slots == s.slots && i < |s.slots| && !s.slots[i].exitFlag
      && s'.manager == (if s.slots[i].idle >= c.consecutiveIdleCount then Retire(i) else Scan(i + 1))
  {
    StaysWithin(c, within, s, Manage(true));
  }

  lemma LetOthersEnd(c: Config, within: Pool -> bool, s: Pool, others: seq<Action>)
    requires Kept(c, within) && within(s) && s.control.Join? && NoControl(others)
    ensures Inv(c, s) && within(Execute(c, s, others)) && JoinKept(s, Execute(c, s, others))
  {
    Within(c, within, s);
    JoinKeptThrough(c, s, others);
    RunStaysWithin(c, within, s, others);
  }

  lemma JoinSteps(c: Config, within: Pool -> bool, s: Pool)
    requires Kept(c, within) && within(s) && Shaped(c, s) && s.control.Join?
    requires s.control.i < s.size ==> !s.slots[s.control.i].joinable || s.slots[s.control.i].pc == Exited
    ensures ControlStep(s, false).control == if s.control.i < s.size then Join(s.control.i + 1) else Finish
    ensures ControlStep(s, false).size == s.size && Inv(c, s) && within(ControlStep(s, false))
  {
    StaysWithin(c, within, s, Control(false));
  }

  lemma AllJoined(c: Config, within: Pool -> bool, s: Pool)
    requires Kept(c, within) && within(s) && s.control == Finish
    ensures forall i :: 0 <= i < |s.slots| ==> s.slots[i].pc == Exited || s.slots[i].pc == Absent
  {
    Within(c, within, s);
    forall i | 0 <= i < |s.slots| ensures s.slots[i].pc == Exited || s.slots[i].pc == Absent {
      assert SlotTable.SlotOk(c, s, i) && Limits.LimitOk(s, i);
    }
  }

  // ----- the thread that joins the workers -----

  ghost predicate JoinKept(s: Pool, s': Pool) {
    s'.control == s.control && s'.size == s.size && |s'.slots| == |s.slots|
  }

  lemma JoinKeptStep(c: Config, s: Pool, a: Action)
    requires SlotTable.Table(c, s) && s.control.Join? && !a.Control?
    ensures JoinKept(s, Next(c, s, a))
  {
  }

  lemma {:induction false} JoinKeptThrough(c: Config, s: Pool, actions: seq<Action>)
    requires Inv(c, s) && s.control.Join? && NoControl(actions)
    ensures JoinKept(s, Execute(c, s, actions))
    decreases |actions|
  {
    if actions != [] {
      var next := JoinKeptFirst(c, s, actions);
      JoinKeptThrough(c, next, actions[1..]);
    }
  }

  lemma JoinKeptFirst(c: Config, s: Pool, actions: seq<Action>) returns (next: Pool)
    requires Inv(c, s) && s.control.Join? && NoControl(actions) && actions != []
    ensures Inv(c, next) && JoinKept(s, next) && Execute(c, s, actions) == Execute(c, next, actions[1..])
    ensures NoControl(actions[1..])
  {
    next := Next(c, s, actions[0]);
    NextInv(c, s, actions[0]);
    assert actions[0] in actions && forall a <- actions[1..] :: a in actions;
    JoinKeptStep(c, s, actions[0]);
  }
}
