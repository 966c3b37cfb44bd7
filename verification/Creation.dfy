/** Which slot a new thread gets, and the slots that nobody uses any more. */
module Creation {
  import opened Configs
  import opened Pools
  import opened Steps
  import Lifecycle
  import SlotTable
  import Balancers
  import Origins
  import opened Runs

  /** The thread of the slot has ended although nobody tells it to exit: it is counted as a thread,
      and as long as it is not flagged the slot is not reused. */
  predicate Dead(w: Slot) {
    w.joinable && !w.exitFlag && w.pc == Exited
  }

  predicate FlagsSlot(s: Pool, a: Action, i: nat) {
    a.Manage? && s.manager == Retire(i) && s.lock == Free
  }

  /** The exit flag of a reused slot is cleared after its new thread has been started. */
  predicate ClearsTooLate(s: Pool, a: Action, i: nat) {
    a.Manage? && s.manager == ClearFlag(i) && i < |s.slots| && s.slots[i].pc == Exited
  }

  lemma WorkDead(s: Pool, j: nat, choice: bool, i: nat)
    requires s.q.Valid() && i < |s.slots| && j < |s.slots| && !s.stopped && s.state != ForceShutting
    ensures Dead(WorkerStep(s, j, choice).slots[i]) <==> Dead(s.slots[i])
  {
  }

  lemma ManageDead(c: Config, s: Pool, choice: bool, i: nat)
    requires SlotTable.Table(c, s) && i < |s.slots|
    ensures
      var a := Manage(choice);
      Dead(ManagerStep(c, s, choice).slots[i])
      <==> ClearsTooLate(s, a, i) || (Dead(s.slots[i]) && !FlagsSlot(s, a, i))
  {
    if NextManagerPc(c, s, choice) != s.manager {
      assert SlotTable.SlotOk(c, s, i);
      ManagedDead(c, s, choice, i);
    }
  }

  lemma ManagedDead(c: Config, s: Pool, choice: bool, i: nat)
    requires Shaped(c, s) && i < |s.slots| && SlotTable.SlotOk(c, s, i) && SlotTable.ManagerOk(c, s)
    requires NextManagerPc(c, s, choice) != s.manager
    ensures
      var a := Manage(choice);
      Dead(ManagedSlots(s, NextManagerPc(c, s, choice), choice)[i])
      <==> ClearsTooLate(s, a, i) || (Dead(s.slots[i]) && !FlagsSlot(s, a, i))
  {
  }

  lemma OthersDead(c: Config, s: Pool, a: Action, i: nat)
    requires Shaped(c, s) && Lifecycle.Placed(s) && i < |s.slots| && !s.stopped && !a.Work? && !a.Manage?
    ensures |Next(c, s, a).slots| == |s.slots| && (Dead(Next(c, s, a).slots[i]) <==> Dead(s.slots[i]))
  {
  }

  /** Before stop and forceStop a slot dies exactly when its flag is cleared after the new thread has
      already left because of it, and is found again only by being retired. */
  lemma DeadIff(c: Config, s: Pool, a: Action, i: nat)
    requires SlotTable.Table(c, s) && Lifecycle.Placed(s) && i < |s.slots| && !s.stopped && s.state != ForceShutting
    ensures |Next(c, s, a).slots| == |s.slots|
    ensures Dead(Next(c, s, a).slots[i])
            <==> ClearsTooLate(s, a, i) || (Dead(s.slots[i]) && !FlagsSlot(s, a, i))
  {
    match a
    case Work(j, choice) => if j < |s.slots| { WorkDead(s, j, choice, i); }
    case Manage(choice) => ManageDead(c, s, choice, i);
    case _ => OthersDead(c, s, a, i);
  }

  /** So in every run. */
  lemma DeadAfterIff(c: Config, actions: seq<Action>, a: Action, i: nat)
    requires ValidateConfigBasic(c).Accepted? && i < c.maxThreads
    requires !After(c, actions).stopped && After(c, actions).state != ForceShutting
    ensures
      var s := After(c, actions);
      Dead(After(c, actions + [a]).slots[i])
      <==> ClearsTooLate(s, a, i) || (Dead(s.slots[i]) && !FlagsSlot(s, a, i))
  {
    AfterInv(c, actions);
    AfterStep(c, actions, a);
    DeadIff(c, After(c, actions), a, i);
  }

  /** A new thread never gets such a slot. */
  lemma DeadIsNotReused(c: Config, s: Pool, choice: bool, i: nat)
    requires SlotTable.Table(c, s) && i < |s.slots| && Dead(s.slots[i])
    ensures StartsThread(s.manager, NextManagerPc(c, s, choice)) ==> Target(s) != i
    ensures s.manager == Create ==> AfterCreate(c, s) != JoinOld(i) && AfterCreate(c, s) != Respawn(i)
  {
    assert SlotTable.SlotOk(c, s, i);
  }

  /** A thread that is about to be counted was started in a new slot, or in a flagged one that has
      lost its flag and its old idle count. */
  lemma CountedThreadIsReady(c: Config, actions: seq<Action>, a: Action)
    requires ValidateConfigBasic(c).Accepted?
    requires After(c, actions).manager != CountThread && After(c, actions + [a]).manager == CountThread
    ensures
      var s, s' := After(c, actions), After(c, actions + [a]);
      || (s.manager == Emplace && s'.size == s.size + 1 && s.size < |s'.slots| == |s.slots|
          && s'.slots[s.size] == Slot(Top, true, false, s.slots[s.size].idle))
      || (s.manager.ClearFlag? && s'.size == s.size && s.manager.i < s.size <= |s'.slots| == |s.slots|
          && s.slots[s.manager.i].exitFlag && !s'.slots[s.manager.i].exitFlag
          && s'.slots[s.manager.i].joinable && s'.slots[s.manager.i].idle == 0)
  {
    AfterInv(c, actions);
    Balancers.AfterPasses(c, actions);
    AfterStep(c, actions, a);
    if !a.Manage? {
      Balancers.OthersOnlyLess(c, After(c, actions), a);
    } else {
      ReadyToCount(c, After(c, actions), a.choice);
    }
  }

  lemma ReadyToCount(c: Config, s: Pool, choice: bool)
    requires SlotTable.Table(c, s) && Balancers.PassOk(c, s)
    requires s.manager != CountThread && ManagerStep(c, s, choice).manager == CountThread
    ensures
      var s' := ManagerStep(c, s, choice);
      || (s.manager == Emplace && s'.size == s.size + 1 && s.size < |s'.slots| == |s.slots|
          && s'.slots[s.size] == Slot(Top, true, false, s.slots[s.size].idle))
      || (s.manager.ClearFlag? && s'.size == s.size && s.manager.i < s.size <= |s'.slots| == |s.slots|
          && s.slots[s.manager.i].exitFlag && !s'.slots[s.manager.i].exitFlag
          && s'.slots[s.manager.i].joinable && s'.slots[s.manager.i].idle == 0)
  {
    if s.manager == Emplace {
      assert SlotTable.SlotOk(c, s, s.size);
    }
  }

  /** Settled on a slot, and no thread started there yet. */
  predicate Creating(pc: ManagerPc) {
    pc.JoinOld? || pc.Respawn? || pc.Emplace?
  }

  lemma StepCreates(c: Config, s: Pool, a: Action)
    requires Shaped(c, s) && !Creating(s.manager) && Creating(Next(c, s, a).manager)
    ensures a.Manage? && s.manager == Create && !s.stopped
  {
    if !a.Manage? {
      Balancers.OthersOnlyLess(c, s, a);
    }
  }

  /** A thread is only started by an attempt that has found the pool not stopped. */
  lemma StartsUnstopped(c: Config, actions: seq<Action>) returns (n: nat)
    requires ValidateConfigBasic(c).Accepted? && Creating(After(c, actions).manager)
    ensures n < |actions| && After(c, actions[..n]).manager == Create && !After(c, actions[..n]).stopped
    ensures forall m :: n < m <= |actions| ==> Creating(After(c, actions[..m]).manager)
  {
    n := Origins.Entered(c, actions, (s: Pool) => Creating(s.manager));
    AfterPrefix(c, actions, n);
    StepCreates(c, After(c, actions[..n]), actions[n]);
  }
}
