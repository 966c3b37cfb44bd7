/** What holds after every run of every number of threads. */
module Theorems {
  import opened Configs
  import opened BlockingQueues
  import opened Pools
  import opened Steps
  import opened Tallies
  import opened Lifecycle
  import opened SlotTable
  import Locking
  import opened Accounting
  import Waking
  import Limits
  import Shutdowns
  import opened Invariants
  import DrainLoop
  import opened Runs

  // ----- queue_mutex_ -----

  /** Two threads never hold queue_mutex_ at once. */
  lemma MutualExclusion(c: Config, actions: seq<Action>, i: nat, j: nat)
    requires ValidateConfigBasic(c).Accepted? && i < c.maxThreads && j < c.maxThreads
    ensures
      var s := After(c, actions);
      Holds(s.slots[i].pc) ==> (Holds(s.slots[j].pc) ==> i == j) && !ControlHolds(s.control)
  {
    AfterInv(c, actions);
    var s := After(c, actions);
    assert Locking.LockOk(s, i) && Locking.LockOk(s, j);
  }

  /** Neither a worker nor the drain ever blocks inside dequeue while it holds queue_mutex_:
      what it saw in the queue is still there, whatever producers did in between. */
  lemma DequeueNeverBlocks(c: Config, actions: seq<Action>, choice: bool)
    requires ValidateConfigBasic(c).Accepted?
    ensures
      var s := After(c, actions);
      && (forall i :: 0 <= i < |s.slots| && s.slots[i].pc == Dequeuing ==>
            s.q.ring.items != [] && NextWorkerPc(s, s.slots[i], choice) == Got(s.q.ring.items[0]))
      && (s.control == DrainDequeue ==>
            s.q.ring.items != [] && NextControlPc(s, choice) == DrainGot(s.q.ring.items[0]))
  {
    AfterInv(c, actions);
    var s := After(c, actions);
    forall i | 0 <= i < |s.slots| && s.slots[i].pc == Dequeuing ensures s.q.ring.items != [] {
      assert Locking.LockOk(s, i);
    }
  }

  // ----- waking up -----

  /** Before a forced shutdown, a sleeping worker means that every queued task has either a
      submitter that is still to notify or a worker that is still to look. */
  lemma NoLostWakeup(c: Config, actions: seq<Action>, i: nat)
    requires ValidateConfigBasic(c).Accepted?
    ensures
      var s := After(c, actions);
      IsAsleep(s.slots, i) && s.state != ForceShutting ==>
        |s.q.ring.items| <= |Waking.Unannounced(s.submits)| + Tally(s.slots, Willing)
  {
    AfterInv(c, actions);
    var s := After(c, actions);
    if IsAsleep(s.slots, i) {
      assert Waking.WakeOk(s, i);
    }
  }

  /** So the workers never all sleep on a task that nobody will announce. */
  lemma AllAsleepMeansEmpty(c: Config, actions: seq<Action>, i: nat)
    requires ValidateConfigBasic(c).Accepted?
    ensures
      var s := After(c, actions);
      && IsAsleep(s.slots, i)
      && s.state != ForceShutting
      && (forall j | 0 <= j < |s.slots| :: s.slots[j].pc in {Asleep, Exited, Absent})
      && Waking.Unannounced(s.submits) == {}
      ==> s.q.ring.items == []
  {
    AfterInv(c, actions);
    var s := After(c, actions);
    NoLostWakeup(c, actions, i);
    if forall j | 0 <= j < |s.slots| :: s.slots[j].pc in {Asleep, Exited, Absent} {
      TallyNone(s.slots, Willing);
    }
  }

  // ----- conservation -----

  /** While queue_mutex_ is free, tasks in the books and tasks in the pool agree; overwritten
      tasks stay in the books for good. */
  lemma TaskConservation(c: Config, actions: seq<Action>)
    requires ValidateConfigBasic(c).Accepted?
    ensures
      var s := After(c, actions);
      s.lock == Free ==>
        s.pending + |Uncounting(s.submits)| == |s.q.ring.items| + s.running + s.q.ring.overrun
  {
    AfterInv(c, actions);
    var s := After(c, actions);
    if s.lock == Free {
      forall i | 0 <= i < |s.slots| ensures Hit(Owing, s.slots[i]) == Hit(CountedRunning, s.slots[i]) {
        assert Locking.LockOk(s, i);
      }
      TallySame(s.slots, s.slots, Owing, CountedRunning);
    }
  }

  /** An idle pool has pending_tasks_ at zero, which is what waitForAllTask waits for, exactly
      when it never overwrote a task. */
  lemma IdlePoolPending(c: Config, actions: seq<Action>)
    requires ValidateConfigBasic(c).Accepted?
    ensures
      var s := After(c, actions);
      s.lock == Free && Quiet(s) && s.q.ring.items == [] && s.running == 0 ==>
        (s.pending == 0 <==> s.q.ring.overrun == 0)
  {
    AfterInv(c, actions);
    var s := After(c, actions);
    TaskConservation(c, actions);
    if Quiet(s) {
      QuietCounts(s);
    }
  }

  // ----- each task once -----

  lemma {:induction false} DistinctCount(xs: seq<Task>, t: Task)
    requires forall i, j :: 0 <= i < j < |xs| ==> xs[i] != xs[j]
    ensures Times(xs, t) <= 1
  {
    if xs != [] {
      var n := |xs| - 1;
      DistinctCount(xs[..n], t);
      assert xs == xs[..n] + [xs[n]];
      if xs[n] == t {
        assert t !in xs[..n];
        assert Times(xs[..n], t) == 0;
      }
    }
  }

  /** In how many places a task is: in the queue, overwritten, in the hand of a worker or of
      the drain, executed, abandoned. */
  ghost function Places(s: Pool, t: Task): nat {
    Times(s.q.ring.items, t) + Times(Lost(s.q.removed), t) + Tally(s.slots, Holding(t))
    + One(s.control == DrainGot(t)) + Times(s.past.executed, t) + Times(s.past.abandoned, t)
  }

  lemma PlacesAddUp(s: Pool, t: Task)
    requires Owned(s)
    ensures Places(s, t) == Times(s.q.pushed, t)
  {
    RemovalsSplit(s.q.removed);
    assert OwnedOk(s, t);
    var taken, lost, items := multiset(Taken(s.q.removed)), multiset(Lost(s.q.removed)), multiset(s.q.ring.items);
    assert multiset(s.q.pushed) == taken + lost + items;
  }

  /** Every accepted task is in exactly one place. It is never executed or abandoned twice,
      nor both. */
  lemma ExactlyOnePlace(c: Config, actions: seq<Action>, t: Task)
    requires ValidateConfigBasic(c).Accepted?
    ensures
      var s := After(c, actions);
      Places(s, t) == if t in s.q.pushed then 1 else 0
  {
    AfterInv(c, actions);
    var s := After(c, actions);
    PlacesAddUp(s, t);
    DistinctCount(s.q.pushed, t);
    assert t in s.q.pushed <==> Times(s.q.pushed, t) > 0;
  }

  // ----- shutdown -----

  /** Once stop has returned every thread is gone and no counter says otherwise. */
  lemma NobodyLeft(c: Config, s: Pool)
    requires Inv(c, s) && s.control == Returned
    ensures forall i :: 0 <= i < |s.slots| ==> s.slots[i].pc == Exited || s.slots[i].pc == Absent
    ensures s.running == 0 && s.active == 0 && forall t :: Tally(s.slots, Holding(t)) == 0
    ensures s.succeeded == |s.past.executed| - s.past.failures
    ensures s.failed == |s.past.abandoned| + s.past.failures
  {
    forall i | 0 <= i < |s.slots| ensures s.slots[i].pc == Exited || s.slots[i].pc == Absent {
      assert SlotOk(c, s, i) && Limits.LimitOk(s, i);
    }
    TallyNone(s.slots, CountedRunning);
    TallyNone(s.slots, CountedActive);
    TallyNone(s.slots, Unreported(true));
    TallyNone(s.slots, Unreported(false));
    forall t ensures Tally(s.slots, Holding(t)) == 0 {
      TallyNone(s.slots, Holding(t));
    }
  }

  /** With all hands empty, what was dequeued is what was executed or abandoned. */
  lemma AllSettled(s: Pool)
    requires Owned(s) && s.control == Returned && forall t :: Tally(s.slots, Holding(t)) == 0
    ensures multiset(Taken(s.q.removed)) == multiset(s.past.executed + s.past.abandoned)
  {
    var dequeued, settled := multiset(Taken(s.q.removed)), multiset(s.past.executed + s.past.abandoned);
    forall t ensures dequeued[t] == settled[t] {
      assert OwnedOk(s, t);
      assert settled[t] == Times(s.past.executed, t) + Times(s.past.abandoned, t);
    }
  }

  lemma SameCount(xs: seq<Task>, ys: seq<Task>)
    requires multiset(xs) == multiset(ys)
    ensures |xs| == |ys|
  {
    assert |multiset(xs)| == |multiset(ys)|;
  }

  lemma ReturnedOutcomes(c: Config, s: Pool)
    requires Inv(c, s) && s.control == Returned
    ensures s.failed == |s.past.abandoned| + s.past.failures
    ensures s.succeeded == |s.past.executed| - s.past.failures
    ensures s.succeeded + s.failed + s.q.ring.overrun + |s.q.ring.items| == |s.q.pushed|
  {
    NobodyLeft(c, s);
    RemovalsSplit(s.q.removed);
    AllSettled(s);
    SameCount(Taken(s.q.removed), s.past.executed + s.past.abandoned);
  }

  lemma ReturnedTasks(c: Config, s: Pool)
    requires Inv(c, s) && s.control == Returned
    ensures multiset(s.past.executed + s.past.abandoned) + multiset(Lost(s.q.removed)) + multiset(s.q.ring.items)
            == multiset(s.q.pushed)
  {
    NobodyLeft(c, s);
    RemovalsSplit(s.q.removed);
    AllSettled(s);
  }

  /** However shutdown or stop was called, and whatever was in flight: when it has returned every
      accepted task was executed or abandoned and counted so, was overwritten, or is still in the
      queue. */
  lemma ReturnedAccount(c: Config, actions: seq<Action>)
    requires ValidateConfigBasic(c).Accepted?
    ensures
      var s := After(c, actions);
      s.control == Returned ==>
        && multiset(s.past.executed + s.past.abandoned) + multiset(Lost(s.q.removed)) + multiset(s.q.ring.items)
           == multiset(s.q.pushed)
        && s.failed == |s.past.abandoned| + s.past.failures
        && s.succeeded == |s.past.executed| - s.past.failures
        && s.succeeded + s.failed + s.q.ring.overrun + |s.q.ring.items| == |s.q.pushed|
  {
    AfterInv(c, actions);
    var s := After(c, actions);
    if s.control == Returned {
      ReturnedOutcomes(c, s);
      ReturnedTasks(c, s);
    }
  }

  /** A graceful shutdown loses nothing: when it returns and no submit call was in flight as it
      began, every accepted task has been executed, once, and counted. */
  lemma GracefulShutdown(c: Config, actions: seq<Action>)
    requires ValidateConfigBasic(c).Accepted?
    ensures
      var s := After(c, actions);
      s.control == Returned && Shutdowns.QuietShutdown(s) && (s.past.option == WaitAll || !s.past.forced) ==>
        && s.q.ring.items == [] && s.running == 0 && s.active == 0 && s.q.ring.overrun == 0
        && s.past.abandoned == [] && multiset(s.past.executed) == multiset(s.q.pushed)
        && s.failed == s.past.failures
        && s.succeeded + s.failed == |s.q.pushed|
  {
    AfterInv(c, actions);
    var s := After(c, actions);
    if s.control == Returned && Shutdowns.QuietShutdown(s) && !s.past.forced {
      GracefulOutcomes(c, s);
    }
  }

  lemma GracefulOutcomes(c: Config, s: Pool)
    requires Inv(c, s) && s.control == Returned && Shutdowns.QuietShutdown(s) && !s.past.forced
    ensures s.q.ring.items == [] && s.running == 0 && s.active == 0 && s.q.ring.overrun == 0
    ensures s.past.abandoned == [] && multiset(s.past.executed) == multiset(s.q.pushed)
    ensures s.failed == s.past.failures && s.succeeded + s.failed == |s.q.pushed|
  {
    NobodyLeft(c, s);
    RemovalsSplit(s.q.removed);
    AllSettled(s);
    assert s.q.pushed == Taken(s.q.removed);
    SameCount(s.past.executed, s.q.pushed);
  }

  /** A forced shutdown accounts for everything: what was queued when it took the queue was
      abandoned, in order; at most one task was started after it began; and the outcomes and
      the overwritten tasks add up to the accepted ones. */
  lemma ForcedShutdown(c: Config, actions: seq<Action>)
    requires ValidateConfigBasic(c).Accepted?
    ensures
      var s := After(c, actions);
      s.past.lateStarts <= 1
      && (s.control == Returned && Shutdowns.QuietShutdown(s) && s.past.forced ==>
            && s.q.ring.items == [] && s.past.abandoned == s.past.atDrain
            && s.failed == |s.past.abandoned| + s.past.failures
            && s.succeeded == |s.past.executed| - s.past.failures
            && s.succeeded + s.failed + s.q.ring.overrun == |s.q.pushed|)
  {
    AfterInv(c, actions);
    var s := After(c, actions);
    if s.control == Returned && Shutdowns.QuietShutdown(s) && s.past.forced {
      ReturnedOutcomes(c, s);
    }
  }

  // ----- the threads -----

  /** Whenever worker_access_mutex_ is free, before stop joins the workers. */
  lemma SlotTableSound(c: Config, actions: seq<Action>, i: nat)
    requires ValidateConfigBasic(c).Accepted?
    ensures
      var s := After(c, actions);
      s.manager == Idle && !BalancerJoined(s.control) ==>
        && s.threadCount == Tally(s.slots, HasThread)
        && c.coreThreads <= s.threadCount <= s.peak <= c.maxThreads
        && s.created - s.destroyed == s.threadCount
        && c.coreThreads <= s.size <= c.maxThreads
        && (i < c.coreThreads ==> s.slots[i].joinable && !s.slots[i].exitFlag)
        && (i < s.size && !s.slots[i].joinable ==> s.slots[i].exitFlag)
  {
    AfterInv(c, actions);
    var s := After(c, actions);
    if s.manager == Idle && !BalancerJoined(s.control) {
      forall j | 0 <= j < c.coreThreads ensures Hit(HasThread, s.slots[j]) {
        assert SlotOk(c, s, j);
      }
      TallyPrefix(s.slots, HasThread, c.coreThreads);
      if i < |s.slots| {
        assert SlotOk(c, s, i);
      }
    }
  }

  /** tryCreateNewThread always finds a slot: its branch for "no slot" is never taken. */
  lemma CreateFindsSlot(c: Config, actions: seq<Action>)
    requires ValidateConfigBasic(c).Accepted?
    ensures
      var s := After(c, actions);
      s.manager == Create && !s.stopped ==> FirstFlagged(s.slots, c.coreThreads, s.size) < c.maxThreads
  {
    AfterInv(c, actions);
    var s := After(c, actions);
    if s.manager == Create && !s.stopped && FirstFlagged(s.slots, c.coreThreads, s.size) == c.maxThreads {
      forall j | 0 <= j < |s.slots| ensures Hit(HasThread, s.slots[j]) {
        assert SlotOk(c, s, j);
      }
      TallyFull(s.slots, HasThread);
    }
  }

  /** The active workers never outnumber the threads by more than the one thread that has
      been started and not yet counted, so loadCheck computes a factor between 0 and 1. */
  lemma LoadFactorBound(c: Config, actions: seq<Action>)
    requires ValidateConfigBasic(c).Accepted?
    ensures
      var s := After(c, actions);
      && 0 <= s.active <= s.threadCount + One(Uncounted(s.manager))
      && (!Uncounted(s.manager) ==> 0.0 <= LoadFactor(s.active, s.threadCount) <= 1.0)
  {
    AfterInv(c, actions);
    var s := After(c, actions);
    forall i | 0 <= i < |s.slots| && Hit(CountedActive, s.slots[i]) ensures Hit(HasThread, s.slots[i]) {
      assert SlotOk(c, s, i);
    }
    TallyWithin(s.slots, s.slots, CountedActive, HasThread);
    if !Uncounted(s.manager) && s.threadCount != 0 {
      FractionWithin(s.active, s.threadCount);
    }
  }

  lemma FractionWithin(m: int, n: int)
    requires 0 <= m <= n && n != 0
    ensures 0.0 <= m as real / n as real <= 1.0
  {
  }

  // ----- the life of the pool -----

  lemma {:induction false} ExecuteRank(c: Config, s: Pool, actions: seq<Action>)
    requires Inv(c, s)
    ensures Rank(s.state) <= Rank(Execute(c, s, actions).state)
    decreases |actions|
  {
    if actions != [] {
      NextInv(c, s, actions[0]);
      RankNeverDrops(c, s, actions[0]);
      ExecuteRank(c, Next(c, s, actions[0]), actions[1..]);
    }
  }

  /** However a run goes on, its state never goes back, a stopped pool stays stopped, and no
      second shutdown passes the guard. */
  lemma LifecycleMonotone(c: Config, past: seq<Action>, future: seq<Action>)
    requires ValidateConfigBasic(c).Accepted?
    ensures
      var s, s' := After(c, past), After(c, past + future);
      && Rank(s.state) <= Rank(s'.state)
      && (s.state == Stopped ==> s'.state == Stopped)
      && s'.past.shutdowns <= 1
  {
    AfterInv(c, past);
    AfterInv(c, past + future);
    InitialInv(c);
    ExecuteAppend(c, Initial(c), past, future);
    ExecuteRank(c, After(c, past), future);
  }

  lemma {:induction false} ExecuteBudget(c: Config, s: Pool, actions: seq<Action>)
    requires Inv(c, s) && Rank(s.state) >= 1
    ensures DrainLoop.DrainBudget(Execute(c, s, actions)) <= DrainLoop.DrainBudget(s)
    decreases |actions|
  {
    if actions != [] {
      NextInv(c, s, actions[0]);
      RankNeverDrops(c, s, actions[0]);
      DrainLoop.BudgetNeverGrows(c, s, actions[0]);
      ExecuteBudget(c, Next(c, s, actions[0]), actions[1..]);
    }
  }

  /** The drain ends despite concurrent submitters: it never abandons more tasks than were
      queued, or past their running check, when the pool stopped taking tasks. */
  lemma DrainEnds(c: Config, past: seq<Action>, future: seq<Action>)
    requires ValidateConfigBasic(c).Accepted?
    ensures
      var s, s' := After(c, past), After(c, past + future);
      Rank(s.state) >= 1 ==> |s'.past.abandoned| <= DrainLoop.DrainBudget(s)
  {
    AfterInv(c, past);
    AfterInv(c, past + future);
    InitialInv(c);
    ExecuteAppend(c, Initial(c), past, future);
    if Rank(After(c, past).state) >= 1 {
      ExecuteBudget(c, After(c, past), future);
    }
  }
}
