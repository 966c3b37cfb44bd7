/** How many steps the threads can still make once the pool is on its way to its end. */
module Measures {
  import opened Configs
  import opened Pools
  import opened Steps
  import opened Tallies
  import Lifecycle
  import SlotTable
  import opened Locking
  import Invariants

  /** shutdown, or stop from stopped_ on. The polling of waitForRunningTask is left to its time
      limit. */
  predicate Ending(s: Pool) {
    (s.stopped || Lifecycle.Rank(s.state) >= 1) && !s.control.PollRunning? && !s.control.PollPending?
  }

  lemma EndingStays(c: Config, s: Pool, a: Action)
    requires Shaped(c, s) && Lifecycle.Placed(s) && Ending(s)
    ensures Ending(Next(c, s, a))
  {
    Lifecycle.RankNeverDrops(c, s, a);
    if a.Control? {
      assert !NextControlPc(s, a.choice).PollRunning? && !NextControlPc(s, a.choice).PollPending?;
    }
  }

  // ----- workers -----

  /** The queue holds nothing and nobody is told to leave for that. */
  predicate Dry(s: Pool) {
    s.q.ring.items == [] && !s.stopped
  }

  /** How many steps a worker can make before it sleeps, exits or takes another task. One that
      looked only because of its exit flag goes round once more if the flag is cleared. */
  function WorkerLeft(w: Slot, dry: bool): nat {
    match w.pc
    case Absent => 0
    case Exited => 0
    case Asleep => 0
    case Dequeuing => 1
    case Taking => if dry && !w.exitFlag then 11 else 2
    case Checking => if dry && !w.exitFlag then 12 else 3
    case SawEmpty => 4
    case Looking => 5
    case WantLock => 6
    case PauseOver => 7
    case PauseSpin => 8
    case PauseCheck => 9
    case Top => if w.exitFlag then 1 else 10
    case Announce => 13
    case Unactive => 14
    case Unrun => 15
    case Uncount => 16
    case Relocking => 17
    case Reporting(_) => 18
    case Executing(_) => 19
    case Stamped(_) => 20
    case Activated(_) => 21
    case Got(_) => 22
  }

  function WorkersLeft(slots: seq<Slot>, dry: bool): nat {
    if slots == [] then 0
    else WorkersLeft(slots[..|slots| - 1], dry) + WorkerLeft(slots[|slots| - 1], dry)
  }

  lemma {:induction false} WorkersLeftUpdate(slots: seq<Slot>, i: nat, w: Slot, dry: bool)
    requires i < |slots|
    ensures WorkersLeft(slots[i := w], dry)
            == WorkersLeft(slots, dry) - WorkerLeft(slots[i], dry) + WorkerLeft(w, dry)
  {
    var n := |slots| - 1;
    if i == n {
      assert slots[i := w][..n] == slots[..n];
    } else {
      WorkersLeftUpdate(slots[..n], i, w, dry);
      assert slots[i := w][..n] == slots[..n][i := w];
    }
  }

  lemma Distributes(m: nat, n: nat)
    ensures m * (n + 1) == m * n + m
  {
  }

  /** No worker has more than `more` steps more than it had. */
  lemma {:induction false} WorkersLeftWithin(slots: seq<Slot>, dry: bool, slots': seq<Slot>, dry': bool, more: nat)
    requires |slots| == |slots'|
    requires forall i :: 0 <= i < |slots| ==> WorkerLeft(slots'[i], dry') <= WorkerLeft(slots[i], dry) + more
    ensures WorkersLeft(slots', dry') <= WorkersLeft(slots, dry) + more * |slots|
  {
    if slots != [] {
      var n := |slots| - 1;
      WorkersLeftWithin(slots[..n], dry, slots'[..n], dry', more);
      Distributes(more, n);
      assert WorkerLeft(slots'[n], dry') <= WorkerLeft(slots[n], dry) + more;
    }
  }

  /** Whoever is about to decide what to do holds queue_mutex_, so nobody else empties the queue. */
  lemma DrySettles(slots: seq<Slot>, dry: bool, dry': bool)
    requires dry' && !dry ==> forall i :: 0 <= i < |slots| ==> slots[i].pc != Checking && slots[i].pc != Taking
    ensures WorkersLeft(slots, dry') <= WorkersLeft(slots, dry)
  {
    WorkersLeftWithin(slots, dry, slots, dry', 0);
  }

  // ----- submit calls -----

  function InPhase(submits: map<Task, SubmitPc>, phase: nat): set<Task> {
    set t | t in submits && SubmitLeft(submits[t]) == phase
  }

  /** A push may add a task for a worker to do, a notification may wake a worker. */
  function SubmitLeft(pc: SubmitPc): nat {
    match pc
    case Checked => 32
    case Chosen(_) => 31
    case Pushed => 8
    case Counted => 7
    case Done => 0
  }

  function SubmitsLeft(submits: map<Task, SubmitPc>): nat {
    32 * |InPhase(submits, 32)| + 31 * |InPhase(submits, 31)|
    + 8 * |InPhase(submits, 8)| + 7 * |InPhase(submits, 7)|
  }

  lemma InPhaseUpdate(submits: map<Task, SubmitPc>, t: Task, pc: SubmitPc, phase: nat)
    requires t in submits
    ensures |InPhase(submits[t := pc], phase)|
            == |InPhase(submits, phase)| + One(SubmitLeft(pc) == phase) - One(SubmitLeft(submits[t]) == phase)
  {
    var before, after := InPhase(submits, phase), InPhase(submits[t := pc], phase);
    if SubmitLeft(pc) == phase {
      assert after == before + {t};
      assert t in before ==> after == before;
    } else {
      assert after == before - {t};
    }
  }

  lemma SubmitsLeftUpdate(submits: map<Task, SubmitPc>, t: Task, pc: SubmitPc)
    requires t in submits
    ensures SubmitsLeft(submits[t := pc]) == SubmitsLeft(submits) - SubmitLeft(submits[t]) + SubmitLeft(pc)
  {
    InPhaseUpdate(submits, t, pc, 32);
    InPhaseUpdate(submits, t, pc, 31);
    InPhaseUpdate(submits, t, pc, 8);
    InPhaseUpdate(submits, t, pc, 7);
  }

  // ----- the other threads -----

  function SlotsLeft(c: Config, i: nat): nat {
    if i < c.maxThreads then c.maxThreads - i else 0
  }

  function ManagerLeft(c: Config, pc: ManagerPc): nat {
    match pc
    case Idle => 0
    case RecordThread => 1
    case CountThread => 2
    case ClearFlag(_) => 12
    case ResetIdle(_) => 13
    case Respawn(_) => 24
    case JoinOld(_) => 25
    case Emplace => 24
    case Create => 26
    case Clean(i) => SlotsLeft(c, i) + 1
    case Retire(_) => 6 * c.maxThreads + 1
    case TestIdle(i) => 6 * c.maxThreads + 3 * SlotsLeft(c, i)
    case Scan(i) => 6 * c.maxThreads + 3 * SlotsLeft(c, i) + 1
    case ReadPending(_) => 9 * c.maxThreads + 28
    case ReadActive => 9 * c.maxThreads + 29
  }

  /** How many steps of workers a step of the manager can add. */
  function ManagerAdds(c: Config, from: ManagerPc, to: ManagerPc): nat {
    if StartsThread(from, to) then 10
    else if from.ClearFlag? then 9
    else if from.Retire? then 6 * c.maxThreads
    else 0
  }

  function BalancerLeft(c: Config, exit: bool, pc: BalancerPc): nat {
    match pc
    case Gone => 0
    case AwaitResume => 2
    case AsleepPaused => 3
    case Looping => 3
    case InClean => 4
    case WantClean => c.maxThreads + 6
    case InLoadCheck => c.maxThreads + 7
    case WantLoadCheck => 10 * c.maxThreads + 37
    case LoadCheck => 10 * c.maxThreads + 38
    case Napping => if exit then 1 else 10 * c.maxThreads + 39
  }

  function ControlLeft(c: Config, pc: ControlPc): nat {
    match pc
    case Forcing => 7 * c.maxThreads + 10
    case WantDrain => 7 * c.maxThreads + 9
    case DrainGot(_) => 7 * c.maxThreads + 11
    case DrainUncount => 7 * c.maxThreads + 10
    case DrainFail => 7 * c.maxThreads + 9
    case Drain => 7 * c.maxThreads + 8
    case DrainDequeue => 7 * c.maxThreads + 7
    case WantWait => 7 * c.maxThreads + 8
    case EvalWait => 7 * c.maxThreads + 7
    case AsleepWait => 7 * c.maxThreads + 6
    case StopBalancer => 7 * c.maxThreads + 5
    case StopWorkers => 7 * c.maxThreads + 4
    case JoinBalancer => c.maxThreads + 3
    case Join(i) => SlotsLeft(c, i) + 2
    case Finish => 1
    case _ => 0
  }

  /** A load check that is still to begin. */
  function CheckLeft(c: Config): nat {
    9 * c.maxThreads + 30
  }

  function StepsLeft(c: Config, s: Pool): nat {
    WorkersLeft(s.slots, Dry(s)) + 22 * |s.q.ring.items| + SubmitsLeft(s.submits) + CheckLeft(c) * s.checkers
    + ManagerLeft(c, s.manager) + BalancerLeft(c, s.balancerExit, s.balancer) + ControlLeft(c, s.control)
  }

  // ----- every step brings the end closer -----

  /** Somebody wakes up without having been notified. */
  predicate Spurious(s: Pool, a: Action) {
    || (a.Work? && a.choice && IsAsleep(s.slots, a.i))
    || (a.Control? && a.choice && s.control == AsleepWait)
    || (a.Balance? && a.wakes && s.balancer == AsleepPaused)
  }

  lemma WorkerEdgeDown(s: Pool, i: nat, choice: bool)
    requires i < |s.slots| && LockOk(s, i) && !(choice && s.slots[i].pc == Asleep)
    requires NextWorkerPc(s, s.slots[i], choice) != s.slots[i].pc
    ensures
      var w := s.slots[i];
      var w' := w.(pc := NextWorkerPc(s, w, choice));
      WorkerLeft(w', Dry(s)) + 2 * One(w.pc.Announce?) < WorkerLeft(w, Dry(s)) + 22 * One(w.pc.Dequeuing?)
  {
  }

  lemma WorkerLeftMoves(s: Pool, i: nat, pc: WorkerPc)
    requires s.q.Valid() && Locked(s) && i < |s.slots| && pc != s.slots[i].pc
    requires s.slots[i].pc.Dequeuing? ==> pc.Got?
    ensures
      var s' := WorkerMoves(s, i, pc);
      WorkersLeft(s'.slots, Dry(s'))
      <= WorkersLeft(s.slots, Dry(s)) - WorkerLeft(s.slots[i], Dry(s)) + WorkerLeft(s.slots[i].(pc := pc), Dry(s))
  {
    var s' := WorkerMoves(s, i, pc);
    WorkersLeftUpdate(s.slots, i, s'.slots[i], Dry(s));
    assert LockOk(s, i);
    forall j | 0 <= j < |s'.slots| && Dry(s') && !Dry(s)
      ensures s'.slots[j].pc != Checking && s'.slots[j].pc != Taking
    {
      assert LockOk(s, j);
    }
    DrySettles(s'.slots, Dry(s), Dry(s'));
  }

  lemma WorkerStepsDown(c: Config, s: Pool, i: nat, choice: bool)
    requires Shaped(c, s) && Locked(s) && i < |s.slots| && !(choice && s.slots[i].pc == Asleep)
    requires NextWorkerPc(s, s.slots[i], choice) != s.slots[i].pc
    ensures StepsLeft(c, WorkerStep(s, i, choice)) < StepsLeft(c, s)
  {
    var pc := NextWorkerPc(s, s.slots[i], choice);
    assert LockOk(s, i);
    WorkerEdgeDown(s, i, choice);
    WorkerLeftMoves(s, i, pc);
    WorkerMovesDown(c, s, WorkerMoves(s, i, pc), i, pc);
  }

  lemma WorkerMovesDown(c: Config, s: Pool, s': Pool, i: nat, pc: WorkerPc)
    requires Shaped(c, s) && i < |s.slots| && s' == WorkerMoves(s, i, pc)
    requires s.slots[i].pc == Dequeuing ==> s.q.ring.items != []
    requires WorkersLeft(s'.slots, Dry(s')) + 2 * One(s.slots[i].pc.Announce?)
             < WorkersLeft(s.slots, Dry(s)) + 22 * One(s.slots[i].pc.Dequeuing?)
    ensures StepsLeft(c, s') < StepsLeft(c, s)
  {
    assert ControlLeft(c, s'.control) <= ControlLeft(c, s.control) + 2 * One(s.slots[i].pc.Announce?);
    assert |s'.q.ring.items| == |s.q.ring.items| - One(s.slots[i].pc.Dequeuing?);
  }

  lemma SubmitSlotsLeft(s: Pool, s': Pool, t: Task, pc: SubmitPc, wake: nat)
    requires s.q.Valid() && t in s.submits && s' == SubmitMoves(s, t, pc, wake)
    ensures WorkersLeft(s'.slots, Dry(s')) <= WorkersLeft(s.slots, Dry(s)) + 6 * One(s.submits[t].Counted?)
  {
    if s.submits[t].Counted? && IsAsleep(s.slots, wake) {
      WorkersLeftUpdate(s.slots, wake, s'.slots[wake], Dry(s));
    }
    DrySettles(s'.slots, Dry(s), Dry(s'));
  }

  lemma SubmitStepsDown(c: Config, s: Pool, t: Task, wake: nat)
    requires Shaped(c, s) && SubmitStep(s, t, wake) != s
    ensures StepsLeft(c, SubmitStep(s, t, wake)) < StepsLeft(c, s)
  {
    var pc := NextSubmitPc(s, s.submits[t], wake);
    var s' := SubmitMoves(s, t, pc, wake);
    SubmitSlotsLeft(s, s', t, pc, wake);
    SubmitsLeftUpdate(s.submits, t, pc);
    assert |s'.q.ring.items| <= |s.q.ring.items| + One(pc.Pushed?);
    assert SubmitLeft(pc) + 22 * One(pc.Pushed?) + 6 * One(s.submits[t].Counted?) < SubmitLeft(s.submits[t]);
  }

  lemma ManagedSlotLeft(c: Config, s: Pool, choice: bool, dry: bool)
    requires SlotTable.Table(c, s) && Target(s) < |s.slots|
    ensures
      var pc := NextManagerPc(c, s, choice);
      var w := s.slots[Target(s)];
      WorkerLeft(ManagedSlot(s, w, pc, choice), dry)
      <= WorkerLeft(w, dry) + (if StartsThread(s.manager, pc) then 10 else if s.manager.ClearFlag? then 9 else 0)
  {
    assert SlotTable.SlotOk(c, s, Target(s));
  }

  lemma ManagedSlotsLeft(c: Config, s: Pool, choice: bool, dry: bool)
    requires SlotTable.Table(c, s)
    ensures
      var pc := NextManagerPc(c, s, choice);
      WorkersLeft(ManagedSlots(s, pc, choice), dry)
      <= WorkersLeft(s.slots, dry) + ManagerAdds(c, s.manager, pc)
  {
    var pc := NextManagerPc(c, s, choice);
    var i := Target(s);
    if i < |s.slots| {
      var touched := s.slots[i := ManagedSlot(s, s.slots[i], pc, choice)];
      WorkersLeftUpdate(s.slots, i, touched[i], dry);
      ManagedSlotLeft(c, s, choice, dry);
      WokenLeft(touched, dry);
    }
  }

  lemma WokenLeft(slots: seq<Slot>, dry: bool)
    ensures WorkersLeft(WakeAll(slots), dry) <= WorkersLeft(slots, dry) + 6 * |slots|
  {
    WorkersLeftWithin(slots, dry, WakeAll(slots), dry, 6);
  }

  lemma ManagerEdgeDown(c: Config, s: Pool, choice: bool)
    requires Shaped(c, s) && SlotTable.ManagerOk(c, s) && NextManagerPc(c, s, choice) != s.manager
    ensures
      var pc := NextManagerPc(c, s, choice);
      ManagerLeft(c, pc) + ManagerAdds(c, s.manager, pc) < ManagerLeft(c, s.manager)
  {
  }

  lemma ManagerStepsDown(c: Config, s: Pool, choice: bool)
    requires SlotTable.Table(c, s) && ManagerStep(c, s, choice) != s
    ensures StepsLeft(c, ManagerStep(c, s, choice)) < StepsLeft(c, s)
  {
    ManagedSlotsLeft(c, s, choice, Dry(s));
    ManagerEdgeDown(c, s, choice);
    ManagerMovesDown(c, s, ManagerStep(c, s, choice));
  }

  lemma ManagerMovesDown(c: Config, s: Pool, s': Pool)
    requires s'.q == s.q && s'.stopped == s.stopped && s'.submits == s.submits && s'.checkers == s.checkers
    requires s'.control == s.control && s'.balancerExit == s.balancerExit
    requires || s'.balancer == s.balancer
             || (s.balancer.InLoadCheck? && s'.balancer.WantClean?)
             || (s.balancer.InClean? && s'.balancer.Looping?)
    requires ManagerLeft(c, s'.manager) + WorkersLeft(s'.slots, Dry(s))
             < ManagerLeft(c, s.manager) + WorkersLeft(s.slots, Dry(s))
    ensures StepsLeft(c, s') < StepsLeft(c, s)
  {
  }

  lemma BalancerEdgeDown(c: Config, s: Pool, wakes: bool)
    requires s.balancerExit || Lifecycle.Rank(s.state) >= 1
    requires BalancerStep(s, wakes).balancer != s.balancer
    ensures
      var s' := BalancerStep(s, wakes);
      ManagerLeft(c, s'.manager) + BalancerLeft(c, s.balancerExit, s'.balancer)
      < ManagerLeft(c, s.manager) + BalancerLeft(c, s.balancerExit, s.balancer)
  {
  }

  lemma BalancerStepsDown(c: Config, s: Pool, wakes: bool)
    requires s.balancerExit || Lifecycle.Rank(s.state) >= 1
    requires BalancerStep(s, wakes) != s
    ensures StepsLeft(c, BalancerStep(s, wakes)) < StepsLeft(c, s)
  {
    var s' := BalancerStep(s, wakes);
    assert s'.balancer == s.balancer ==> s' == s;
    BalancerEdgeDown(c, s, wakes);
    assert s' == s.(balancer := s'.balancer, manager := s'.manager);
  }

  /** stop wakes every sleeper. */
  function ControlAdds(c: Config, from: ControlPc): nat {
    if from.StopWorkers? then 6 * c.maxThreads else 0
  }

  lemma SameSlotsLeft(slots: seq<Slot>, dry: bool, slots': seq<Slot>, dry': bool)
    requires |slots'| == |slots|
    requires forall j :: 0 <= j < |slots| ==>
               slots'[j].pc == slots[j].pc && slots'[j].exitFlag == slots[j].exitFlag
    requires dry' && !dry ==> forall j :: 0 <= j < |slots| ==> slots[j].pc != Checking && slots[j].pc != Taking
    ensures WorkersLeft(slots', dry') <= WorkersLeft(slots, dry)
  {
    WorkersLeftWithin(slots, dry, slots', dry', 0);
  }

  /** Only whoever holds queue_mutex_ empties the queue. */
  lemma ControlDries(c: Config, s: Pool, choice: bool)
    requires Shaped(c, s) && Locked(s) && Dry(ControlStep(s, choice)) && !Dry(s)
    ensures forall j :: 0 <= j < |s.slots| ==> s.slots[j].pc != Checking && s.slots[j].pc != Taking
  {
    assert s.control == DrainDequeue;
    forall j | 0 <= j < |s.slots| ensures s.slots[j].pc != Checking && s.slots[j].pc != Taking {
      assert LockOk(s, j);
    }
  }

  lemma ControlWakesLeft(c: Config, s: Pool, s': Pool)
    requires |s.slots| == c.maxThreads && (s' == s || (s'.slots == WakeAll(s.slots) && s'.stopped))
    ensures WorkersLeft(s'.slots, Dry(s')) <= WorkersLeft(s.slots, Dry(s)) + 6 * c.maxThreads
  {
    WokenLeft(s.slots, Dry(s));
    if s' != s {
      DrySettles(s'.slots, Dry(s), Dry(s'));
    }
  }

  lemma ControlSlotsLeft(c: Config, s: Pool, choice: bool)
    requires Shaped(c, s) && Locked(s)
    ensures
      var s' := ControlStep(s, choice);
      WorkersLeft(s'.slots, Dry(s')) <= WorkersLeft(s.slots, Dry(s)) + ControlAdds(c, s.control)
  {
    var s' := ControlStep(s, choice);
    if Dry(s') && !Dry(s) {
      ControlDries(c, s, choice);
    }
    if s.control.StopWorkers? {
      ControlWakesLeft(c, s, s');
    } else {
      SameSlotsLeft(s.slots, Dry(s), s'.slots, Dry(s'));
    }
  }

  lemma ControlEdgeDown(c: Config, s: Pool, choice: bool)
    requires Shaped(c, s) && Ending(s) && !(choice && s.control == AsleepWait)
    requires NextControlPc(s, choice) != s.control
    ensures ControlLeft(c, NextControlPc(s, choice)) + ControlAdds(c, s.control)
            < ControlLeft(c, s.control) + 22 * One(s.control.DrainDequeue?)
  {
  }

  lemma ControlStepsDown(c: Config, s: Pool, choice: bool)
    requires Shaped(c, s) && Locked(s) && Ending(s) && !(choice && s.control == AsleepWait)
    requires ControlStep(s, choice) != s
    ensures StepsLeft(c, ControlStep(s, choice)) < StepsLeft(c, s)
  {
    ControlSlotsLeft(c, s, choice);
    ControlEdgeDown(c, s, choice);
    var s' := ControlStep(s, choice);
    assert |s'.q.ring.items| == |s.q.ring.items| - One(s.control.DrainDequeue?);
    assert BalancerLeft(c, s'.balancerExit, s'.balancer) <= BalancerLeft(c, s.balancerExit, s.balancer);
  }

  lemma CheckStepsDown(c: Config, s: Pool)
    requires EnterLoadCheck(s) != s
    ensures StepsLeft(c, EnterLoadCheck(s)) < StepsLeft(c, s)
  {
    assert CheckLeft(c) * s.checkers == CheckLeft(c) * (s.checkers - 1) + CheckLeft(c);
  }

  /** A step of one of the pool's own threads, or of a call that is already inside. */
  predicate Internal(a: Action) {
    a.Work? || a.ContinueSubmit? || a.Manage? || a.EnterCheck? || a.Balance? || a.Control?
  }

  /** On the way to its end every step of a thread that is inside brings the pool closer to it. */
  lemma StepsLeftDrops(c: Config, s: Pool, a: Action)
    requires Invariants.Inv(c, s) && Ending(s) && Internal(a) && !Spurious(s, a) && Next(c, s, a) != s
    ensures StepsLeft(c, Next(c, s, a)) < StepsLeft(c, s)
  {
    match a
    case Work(i, choice) => WorkerStepsDown(c, s, i, choice);
    case ContinueSubmit(t, wake) => SubmitStepsDown(c, s, t, wake);
    case Manage(choice) => ManagerStepsDown(c, s, choice);
    case EnterCheck => CheckStepsDown(c, s);
    case Balance(wakes) => BalancerStepsDown(c, s, wakes);
    case Control(choice) => ControlStepsDown(c, s, choice);
  }
}
