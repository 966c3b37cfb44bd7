/** What each worker may still do once the pool is forced down or stopped. */
module Limits {
  import opened Configs
  import opened Pools
  import opened Steps
  import Lifecycle
  import opened SlotTable
  import Locking

  /** stop has joined the slot's thread. */
  predicate Joined(control: ControlPc, i: nat) {
    (control.Join? && i < control.i) || control.Finish? || control.Returned?
  }

  predicate AboutToTake(pc: WorkerPc) {
    pc.Taking? || pc.Dequeuing?
  }

  ghost predicate LimitOk(s: Pool, i: nat)
    requires i < |s.slots|
  {
    var w := s.slots[i];
    && (Joined(s.control, i) ==> !w.joinable)
    && (s.past.lateStarts > 0 ==> !AboutToTake(w.pc))
  }

  ghost predicate Limited(s: Pool) {
    && (forall i :: 0 <= i < |s.slots| ==> LimitOk(s, i))
    && s.past.lateStarts <= 1
    && (s.past.lateStarts > 0 ==> Lifecycle.Rank(s.state) >= 2)
  }

  lemma EdgeLimits(s: Pool, w: Slot, choice: bool)
    requires NextWorkerPc(s, w, choice) != w.pc
    ensures
      var pc := NextWorkerPc(s, w, choice);
      AboutToTake(pc) ==> w.pc == Taking || (w.pc == Checking && s.state != ForceShutting)
  {
  }

  lemma WorkerLimited(c: Config, s: Pool, i: nat, choice: bool)
    requires Table(c, s) && Lifecycle.Placed(s) && Locking.Locked(s) && Limited(s) && i < |s.slots|
    ensures Limited(WorkerStep(s, i, choice))
  {
    var w := s.slots[i];
    var pc := NextWorkerPc(s, w, choice);
    if pc != w.pc {
      var s' := WorkerMoves(s, i, pc);
      EdgeLimits(s, w, choice);
      assert SlotOk(c, s, i) && LimitOk(s, i) && Locking.LockOk(s, i);
      forall j | 0 <= j < |s'.slots| ensures LimitOk(s', j) {
        assert LimitOk(s, j) && Locking.LockOk(s, j);
      }
    }
  }

  lemma SubmitLimited(c: Config, s: Pool, t: Task, wake: nat)
    requires Shaped(c, s) && Limited(s)
    ensures Limited(SubmitStep(s, t, wake))
  {
    var s' := SubmitStep(s, t, wake);
    forall j | 0 <= j < |s'.slots| ensures LimitOk(s', j) {
      assert LimitOk(s, j);
    }
  }

  lemma ManagerLimited(c: Config, s: Pool, choice: bool)
    requires Table(c, s) && Limited(s)
    ensures Limited(ManagerStep(c, s, choice))
  {
    var pc := NextManagerPc(c, s, choice);
    if pc != s.manager {
      forall j | 0 <= j < |s.slots| ensures LimitOk(ManagerMoves(s, pc, choice), j) {
        assert LimitOk(s, j);
        ManagerSameWork(c, s, choice, j);
      }
    }
  }

  lemma ControlLimited(c: Config, s: Pool, choice: bool)
    requires Table(c, s) && Lifecycle.Placed(s) && Limited(s)
    ensures Limited(ControlStep(s, choice))
  {
    var pc := NextControlPc(s, choice);
    if pc != s.control {
      var s' := ControlMoves(s, pc);
      forall j | 0 <= j < |s'.slots| ensures LimitOk(s', j) {
        assert LimitOk(s, j) && SlotOk(c, s, j);
        ControlLimitOk(c, s, choice, j);
      }
    }
  }

  lemma ControlLimitOk(c: Config, s: Pool, choice: bool, j: nat)
    requires Shaped(c, s) && Lifecycle.Placed(s) && j < |s.slots| && LimitOk(s, j) && SlotOk(c, s, j)
    requires NextControlPc(s, choice) != s.control
    ensures LimitOk(ControlMoves(s, NextControlPc(s, choice)), j)
  {
  }

  lemma OtherLimited(s: Pool, s': Pool)
    requires Limited(s)
    requires s'.slots == s.slots
    requires s'.stopped == s.stopped && Lifecycle.Rank(s.state) <= Lifecycle.Rank(s'.state)
    requires forall j :: Joined(s'.control, j) <==> Joined(s.control, j)
    requires s'.past.lateStarts == s.past.lateStarts
    ensures Limited(s')
  {
    forall j | 0 <= j < |s'.slots| ensures LimitOk(s', j) {
      assert LimitOk(s, j);
    }
  }
}
