/** waitForAllTask: the controlling thread asleep on wait_cv_. Unlike the workers it can miss
    its wake-up, because a submit call adds to pending_tasks_ without notifying wait_cv_. */
module Waiter {
  import opened Configs
  import opened Pools
  import opened Steps
  import SlotTable
  import Tallies
  import Lifecycle
  import Locking
  import Accounting
  import opened Shutdowns
  import opened Invariants
  import opened Runs

  /** A worker has subtracted its task and is about to notify the waiter. */
  predicate Announcing(s: Pool) {
    && s.lock.Worker?
    && s.lock.i < |s.slots|
    && (s.slots[s.lock.i].pc.Unrun? || s.slots[s.lock.i].pc.Unactive? || s.slots[s.lock.i].pc.Announce?)
  }

  /** A sleeping waiter still has something to wait for, or a notification coming. */
  predicate Heard(s: Pool) {
    s.control == AsleepWait ==> s.pending != 0 || Announcing(s)
  }

  /** The submit call that adds the task which a worker has already finished. */
  predicate LosesWaiter(s: Pool, a: Action) {
    && s.control == AsleepWait && s.pending == -1 && !Announcing(s)
    && a.ContinueSubmit? && a.t in s.submits && s.submits[a.t] == Pushed
  }

  lemma WorkerHeard(s: Pool, i: nat, choice: bool)
    requires s.q.Valid() && Locking.Locked(s) && Heard(s) && i < |s.slots|
    ensures Heard(WorkerStep(s, i, choice))
  {
    assert Locking.LockOk(s, i);
  }

  lemma ManagerHeard(c: Config, s: Pool, choice: bool)
    requires SlotTable.Table(c, s) && Heard(s)
    ensures Heard(ManagerStep(c, s, choice))
  {
    if Announcing(s) {
      SlotTable.ManagerSameWork(c, s, choice, s.lock.i);
    }
  }

  lemma SubmitHeardIff(c: Config, s: Pool, t: Task, wake: nat)
    requires SlotTable.Table(c, s) && Locking.Locked(s) && Heard(s)
    ensures Heard(SubmitStep(s, t, wake)) <==> !LosesWaiter(s, ContinueSubmit(t, wake))
  {
  }

  lemma ControlHeard(c: Config, s: Pool, choice: bool)
    requires Shaped(c, s) && Heard(s)
    ensures Heard(ControlStep(s, choice))
  {
  }

  lemma OtherHeard(c: Config, s: Pool, a: Action)
    requires Shaped(c, s) && Heard(s)
    requires !a.Work? && !a.Manage? && !a.ContinueSubmit? && !a.Control?
    ensures Heard(Next(c, s, a))
  {
  }

  /** A step loses the waiter's wake-up exactly when it counts a task that was finished before
      it was counted, and thereby brings the counter from below zero to zero. */
  lemma WaiterForgottenIff(c: Config, s: Pool, a: Action)
    requires Inv(c, s) && Heard(s)
    ensures !Heard(Next(c, s, a)) <==> LosesWaiter(s, a)
  {
    match a
    case Work(i, choice) => if i < |s.slots| { WorkerHeard(s, i, choice); }
    case Manage(choice) => ManagerHeard(c, s, choice);
    case ContinueSubmit(t, wake) => SubmitHeardIff(c, s, t, wake);
    case Control(choice) => ControlHeard(c, s, choice);
    case _ => OtherHeard(c, s, a);
  }

  lemma ShutdownStarts(c: Config, s: Pool, a: Action)
    requires Shaped(c, s) && QuietShutdown(Next(c, s, a))
    ensures QuietShutdown(s) || Next(c, s, a).control != AsleepWait
  {
  }

  lemma NextHeard(c: Config, s: Pool, a: Action)
    requires Inv(c, s) && (QuietShutdown(s) ==> Heard(s))
    ensures QuietShutdown(Next(c, s, a)) ==> Heard(Next(c, s, a))
  {
    if QuietShutdown(s) {
      assert !LosesWaiter(s, a);
      WaiterForgottenIff(c, s, a);
    } else if QuietShutdown(Next(c, s, a)) {
      ShutdownStarts(c, s, a);
    }
  }

  lemma {:induction false} ExecuteHeard(c: Config, s: Pool, actions: seq<Action>)
    requires Inv(c, s) && (QuietShutdown(s) ==> Heard(s))
    ensures QuietShutdown(Execute(c, s, actions)) ==> Heard(Execute(c, s, actions))
    decreases |actions|
  {
    if actions != [] {
      NextInv(c, s, actions[0]);
      NextHeard(c, s, actions[0]);
      ExecuteHeard(c, Next(c, s, actions[0]), actions[1..]);
    }
  }

  // ----- shutdown(WAIT_ALL) with no submit call in flight as it begins -----

  ghost predicate QuietWaitAll(s: Pool) {
    QuietShutdown(s) && s.past.option == WaitAll
  }

  /** The waiter is never forgotten: while it sleeps pending_tasks_ is not zero, or a worker is
      about to notify it. What pending_tasks_ then counts is a task to wait for only as long as
      nothing was overwritten. */
  lemma QuietWaiterIsHeard(c: Config, actions: seq<Action>)
    requires ValidateConfigBasic(c).Accepted?
    ensures
      var s := After(c, actions);
      QuietShutdown(s) && s.control == AsleepWait ==>
        && (s.pending != 0 || Announcing(s))
        && (s.q.ring.overrun == 0 ==>
              s.q.ring.items != [] || Tallies.Tally(s.slots, Tallies.Owing) > 0 || Announcing(s))
  {
    AfterInv(c, actions);
    InitialInv(c);
    ExecuteHeard(c, Initial(c), actions);
    var s := After(c, actions);
    if QuietShutdown(s) {
      Accounting.QuietCounts(s);
    }
  }

  lemma OverwrittenWaits(c: Config, s: Pool)
    requires Inv(c, s) && QuietWaitAll(s) && s.q.ring.overrun > 0
    ensures WaitingForAll(s.control)
  {
  }

  /** What a shutdown began with stays as it was, and an overwritten task stays overwritten. */
  lemma ShutdownKept(c: Config, s: Pool, a: Action)
    requires Shaped(c, s) && Lifecycle.Placed(s) && s.past.shutdowns == 1
    ensures
      var s' := Next(c, s, a);
      && s'.past.shutdowns == 1 && s'.past.quiet == s.past.quiet && s'.past.option == s.past.option
      && s.q.ring.overrun <= s'.q.ring.overrun
  {
  }

  lemma {:induction false} OverwrittenStays(c: Config, s: Pool, actions: seq<Action>)
    requires Inv(c, s) && QuietWaitAll(s) && s.q.ring.overrun > 0
    ensures WaitingForAll(Execute(c, s, actions).control)
    decreases |actions|
  {
    if actions == [] {
      OverwrittenWaits(c, s);
    } else {
      NextInv(c, s, actions[0]);
      ShutdownKept(c, s, actions[0]);
      OverwrittenStays(c, Next(c, s, actions[0]), actions[1..]);
    }
  }

  /** Once a task was overwritten, the shutdown stays in waitForAllTask however the run goes
      on, whoever wakes up. */
  lemma OverwrittenNeverReturns(c: Config, past: seq<Action>, future: seq<Action>)
    requires ValidateConfigBasic(c).Accepted?
    ensures
      var s, s' := After(c, past), After(c, past + future);
      QuietWaitAll(s) && s.q.ring.overrun > 0 ==> WaitingForAll(s'.control)
  {
    AfterInv(c, past);
    InitialInv(c);
    ExecuteAppend(c, Initial(c), past, future);
    if QuietWaitAll(After(c, past)) && After(c, past).q.ring.overrun > 0 {
      OverwrittenStays(c, After(c, past), future);
    }
  }
}
