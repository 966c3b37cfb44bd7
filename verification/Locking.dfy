/** Who holds queue_mutex_, and why a consumer that holds it never waits for an element. */
module Locking {
  import opened Configs
  import opened Pools
  import opened Steps
  import SlotTable

  ghost predicate LockOk(s: Pool, i: nat)
    requires i < |s.slots|
  {
    && (Holds(s.slots[i].pc) <==> s.lock == Worker(i))
    && (s.slots[i].pc == Dequeuing ==> s.q.ring.items != [])
    && (s.slots[i].pc == Taking && s.stopped ==> s.q.ring.items != [])
  }

  /** queue_mutex_ is held by exactly the thread whose position says so, and whoever is
      about to dequeue under it has an element waiting. */
  ghost predicate Locked(s: Pool) {
    && (forall i :: 0 <= i < |s.slots| ==> LockOk(s, i))
    && (ControlHolds(s.control) <==> s.lock == Controller)
    && (s.lock.Worker? ==> s.lock.i < |s.slots|)
    && (s.control == DrainDequeue ==> s.q.ring.items != [])
  }

  lemma WorkerLocked(c: Config, s: Pool, i: nat, choice: bool)
    requires Shaped(c, s) && Locked(s) && i < |s.slots|
    ensures Locked(WorkerStep(s, i, choice))
  {
    var pc := NextWorkerPc(s, s.slots[i], choice);
    if pc != s.slots[i].pc {
      assert LockOk(s, i);
      WorkerMovesLocked(c, s, i, pc);
    }
  }

  lemma WorkerMovesLocked(c: Config, s: Pool, i: nat, pc: WorkerPc)
    requires Shaped(c, s) && Locked(s) && i < |s.slots|
    requires Holds(pc) && !Holds(s.slots[i].pc) ==> s.lock == Free
    requires pc == Dequeuing ==> s.q.ring.items != [] && s.slots[i].pc != Dequeuing
    requires pc == Taking && s.stopped ==> s.q.ring.items != [] && s.slots[i].pc != Dequeuing
    ensures Locked(WorkerMoves(s, i, pc))
  {
    var s' := WorkerMoves(s, i, pc);
    assert LockOk(s, i);
    forall j | 0 <= j < |s'.slots| ensures LockOk(s', j) {
      assert LockOk(s, j);
    }
  }

  lemma SubmitLocked(c: Config, s: Pool, t: Task, wake: nat)
    requires Shaped(c, s) && Locked(s)
    ensures Locked(SubmitStep(s, t, wake))
  {
    var s' := SubmitStep(s, t, wake);
    forall j | 0 <= j < |s'.slots| ensures LockOk(s', j) {
      assert LockOk(s, j);
    }
  }

  lemma ManagerLocked(c: Config, s: Pool, choice: bool)
    requires SlotTable.Table(c, s) && Locked(s)
    ensures Locked(ManagerStep(c, s, choice))
  {
    var s' := ManagerStep(c, s, choice);
    forall j | 0 <= j < |s.slots|
      ensures |s'.slots| == |s.slots| && SameHolding(s.slots[j], s'.slots[j])
    {
      ManagerHolding(c, s, choice, j);
    }
    SameHoldingLocked(s, s');
  }

  /** What LockOk looks at. */
  predicate SameHolding(w: Slot, w': Slot) {
    && Holds(w'.pc) == Holds(w.pc)
    && (w'.pc == Dequeuing || w'.pc == Taking ==> w'.pc == w.pc)
  }

  lemma ManagerHolding(c: Config, s: Pool, choice: bool, j: nat)
    requires SlotTable.Table(c, s) && j < |s.slots|
    ensures
      var s' := ManagerStep(c, s, choice);
      |s'.slots| == |s.slots| && SameHolding(s.slots[j], s'.slots[j])
  {
    if NextManagerPc(c, s, choice) != s.manager {
      SlotTable.ManagerSameWork(c, s, choice, j);
    }
  }

  lemma SameHoldingLocked(s: Pool, s': Pool)
    requires Locked(s) && |s'.slots| == |s.slots|
    requires forall j :: 0 <= j < |s.slots| ==> SameHolding(s.slots[j], s'.slots[j])
    requires s'.lock == s.lock && s'.q == s.q && s'.stopped == s.stopped && s'.control == s.control
    ensures Locked(s')
  {
    forall j | 0 <= j < |s'.slots| ensures LockOk(s', j) {
      assert LockOk(s, j);
    }
  }

  lemma ControlLocked(c: Config, s: Pool, choice: bool)
    requires Shaped(c, s) && Locked(s)
    ensures Locked(ControlStep(s, choice))
  {
    var s' := ControlStep(s, choice);
    forall j | 0 <= j < |s'.slots| ensures LockOk(s', j) {
      assert LockOk(s, j);
    }
  }

  lemma OtherLocked(s: Pool, s': Pool)
    requires Locked(s)
    requires s'.slots == s.slots
    requires s'.q == s.q && s'.lock == s.lock && s'.stopped == s.stopped
    requires ControlHolds(s.control) <==> ControlHolds(s'.control)
    requires s.control == DrainDequeue <==> s'.control == DrainDequeue
    ensures Locked(s')
  {
    forall j | 0 <= j < |s'.slots| ensures LockOk(s', j) {
      assert LockOk(s, j);
    }
  }
}
