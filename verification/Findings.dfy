/** Runs that end where one would not expect a pool to be. */
module Findings {
  import opened Configs
  import opened Pools
  import opened Steps
  import Hanging
  import Invariants
  import opened Runs
  import Accounting
  import Creation
  import Readings
  import Waiter
  import opened Witnesses

  // ----- shutdown(WAIT_ALL) that never returns -----

  /** The waiter sleeps and there is nothing left to do: as Hanging proves, nobody inside can move,
      and short of a spurious wake-up the shutdown never returns. */
  ghost predicate Hung(s: Pool) {
    s.control == AsleepWait && Hanging.Deserted(s)
  }

  /** One task is pushed, executed and subtracted before its submit call has counted it. */
  lemma Overtakes(c: Config, within: Pool -> bool) returns (s': Pool)
    requires Closed(c, within) && within(Initial(c)) && Usable(c)
    ensures within(s') && Shaped(c, s') && Ready(s', 0) && s'.control == Outside && s'.state == Running
    ensures s'.pending == -1 && s'.q.ring.items == [] && s'.submits == map[0 := Pushed]
    ensures s'.threadCount == c.coreThreads && s'.manager == Idle
    ensures forall i :: c.coreThreads <= i < |s'.slots| ==> s'.slots[i].pc == Absent
  {
    var s1 := Pushes(c, within, Initial(c), 0);
    var s2 := Takes(c, within, s1, 0);
    s' := Finishes(c, within, s2, 0);
  }

  lemma Hangs(c: Config, within: Pool -> bool) returns (s': Pool)
    requires Closed(c, within) && within(Initial(c)) && Usable(c) && c.coreThreads == 1
    ensures within(s') && Hung(s') && s'.pending == 0
  {
    var s3 := Overtakes(c, within);
    var s4 := WaitsForAll(c, within, s3);
    var s5 := Submits(c, within, s4, 0);
    var s6 := Notifies(c, within, s5, 0);
    s' := FallsAsleep(c, within, s6, 0);
  }

  /** A pool reaches that point when its only worker finishes a task before the submit call
      counts it, and shutdown begins to wait in between. */
  lemma ShutdownCanHang(c: Config)
    requires ValidateConfigBasic(c).Accepted? && c.coreThreads == 1
    ensures exists actions :: Hung(After(c, actions)) && After(c, actions).pending == 0
  {
    ReachableIsClosed(c);
    var s := Hangs(c, Within(c));
    assert Reachable(c, s);
  }

  /** One task has been overwritten and the other one executed; both submit calls are over. */
  lemma Overwrites(c: Config, within: Pool -> bool) returns (s': Pool)
    requires Closed(c, within) && within(Initial(c)) && Usable(c)
    requires c.coreThreads == 1 && c.maxQueueSize == 1 && c.policy == Overwrite
    ensures within(s') && Shaped(c, s') && s'.lock == Free && s'.control == Outside && s'.state == Running
    ensures s'.pending == 1 && s'.q.ring.items == [] && s'.q.ring.overrun == 1 && Quiet(s')
    ensures s'.past.shutdowns == 0
    ensures forall i :: 0 <= i < |s'.slots| ==> s'.slots[i].pc == if i == 0 then Asleep else Absent
  {
    var s1 := Passes(c, within, Initial(c), 0);
    var s2 := Passes(c, within, s1, 1);
    var s3 := Takes(c, within, s2, 0);
    var s4 := Finishes(c, within, s3, 0);
    s' := FallsAsleep(c, within, s4, 0);
  }

  /** A whole submit call under the overwriting policy. */
  lemma Passes(c: Config, within: Pool -> bool, s: Pool, t: Task) returns (s': Pool)
    requires Closed(c, within) && within(s) && Shaped(c, s) && s.state == Running && t !in s.submits
    requires s.policy == Overwrite && s.q.ring.capacity == 1 && s.lock == Free && NoneAsleep(s.slots)
    ensures within(s') && Shaped(c, s') && OnlyTasks(s, s') && s'.submits == s.submits[t := Done]
    ensures s'.pending == s.pending + 1 && s'.q.ring == s.q.ring.Push(t)
  {
    var s1 := Begins(c, within, s, t);
    var s2 := Submits(c, within, s1, t);
    var s3 := Submits(c, within, s2, t);
    var s4 := Submits(c, within, s3, t);
    s' := Notifies(c, within, s4, t);
    assert s'.submits == s.submits[t := Done];
  }

  ghost predicate HungByOverwriting(s: Pool) {
    Hung(s) && Waiter.QuietWaitAll(s) && s.pending == s.q.ring.overrun == 1
  }

  lemma OverwritesAndHangs(c: Config, within: Pool -> bool) returns (s': Pool)
    requires Closed(c, within) && within(Initial(c)) && Usable(c)
    requires c.coreThreads == 1 && c.maxQueueSize == 1 && c.policy == Overwrite
    ensures within(s') && HungByOverwriting(s')
  {
    var s1 := Overwrites(c, within);
    s' := WaitsForAll(c, within, s1);
  }

  /** Nor does it take a submit call in flight: with the overwriting policy a shutdown(WAIT_ALL)
      that begins on an idle pool sleeps for ever once a task was overwritten. */
  lemma OverwritingHangs(c: Config)
    requires ValidateConfigBasic(c).Accepted?
    requires c.coreThreads == 1 && c.maxQueueSize == 1 && c.policy == Overwrite
    ensures exists actions :: HungByOverwriting(After(c, actions))
  {
    ReachableIsClosed(c);
    var s := OverwritesAndHangs(c, Within(c));
    assert Reachable(c, s);
  }

  // ----- loadCheck and getStatus -----

  /** loadCheck reads a counter below zero as a huge number of pending tasks. */
  lemma GrowsIdle(c: Config, within: Pool -> bool, s: Pool) returns (s': Pool)
    requires Closed(c, within) && within(s) && Shaped(c, s)
    requires s.manager == Idle && s.control == Outside && s.state == Running
    requires -WORD <= s.pending < 0 && c.taskLimit <= WORD + s.pending && s.threadCount < c.maxThreads
    ensures within(s') && s' == s.(manager := Create)
  {
    var s2 := ChecksLoad(c, within, s);
    assert ShouldExpand(c, s.active, s.threadCount, s.pending);
    s' := Next(c, s2, Manage(true));
  }

  /** So it asks for another thread although no task is queued. */
  lemma IdlePoolGrows(c: Config)
    requires ValidateConfigBasic(c).Accepted? && c.coreThreads < c.maxThreads && c.taskLimit < WORD
    ensures exists actions ::
              var s := After(c, actions);
              s.manager == Create && s.q.ring.items == [] && s.pending == -1
  {
    ReachableIsClosed(c);
    var s := Overtakes(c, Within(c));
    var s' := GrowsIdle(c, Within(c), s);
    assert Reachable(c, s');
  }

  lemma Outnumbers(c: Config, within: Pool -> bool) returns (s': Pool)
    requires Closed(c, within) && within(Initial(c)) && Usable(c)
    requires c.coreThreads == 1 && c.maxThreads > 1 && c.expandFactor <= 1.0
    ensures within(s') && s'.active == 2 && s'.threadCount == 1
  {
    var s1 := Pushes(c, within, Initial(c), 0);
    var s2 := Takes(c, within, s1, 0);
    var s3 := Grows(c, within, s2);
    var s4 := Pushes(c, within, s3, 1);
    s' := Takes(c, within, s4, 1);
  }

  /** getStatus, which takes no part in worker_access_mutex_, can report a load factor of two:
      both workers are active while only one thread is counted. */
  lemma StatusCanExceedOne(c: Config)
    requires ValidateConfigBasic(c).Accepted?
    requires c.coreThreads == 1 && c.maxThreads > 1 && c.expandFactor <= 1.0
    ensures exists actions :: Readings.StatusFactor(c, actions, []) == 2.0
  {
    ReachableIsClosed(c);
    var s := Outnumbers(c, Within(c));
    var actions :| s == After(c, actions);
    assert actions + [] == actions;
    assert Readings.StatusFactor(c, actions, []) == 2.0;
  }

  lemma CountsAndOutnumbers(c: Config, within: Pool -> bool, s: Pool) returns (s': Pool)
    requires Closed(c, within) && within(s) && Shaped(c, s) && s.manager == Idle && s.control == Outside
    requires s.state == Running && !s.stopped
    requires s.lock == Free && s.submits == map[0 := Pushed] && s.q.ring.items == []
    requires c.coreThreads == s.size == 1 && c.maxThreads > 1 && s.active == s.threadCount == 1
    requires c.expandFactor <= 1.0 && !s.slots[1].exitFlag && s.q.ring.capacity > 0
    ensures within(s') && s'.active == 2 && s'.manager == RecordThread
  {
    var s3 := Grows(c, within, s);
    var s4 := Counts(c, within, s3);
    var s5 := Pushes(c, within, s4, 1);
    s' := Takes(c, within, s5, 1);
  }

  lemma OneActive(c: Config, within: Pool -> bool) returns (s': Pool)
    requires Closed(c, within) && within(Initial(c)) && Usable(c) && c.coreThreads == 1 && c.maxThreads > 1
    ensures within(s') && Shaped(c, s') && s'.manager == Idle && s'.control == Outside
    ensures s'.state == Running && !s'.stopped && s'.lock == Free && s'.submits == map[0 := Pushed]
    ensures s'.q.ring.items == [] && s'.size == 1 && s'.active == s'.threadCount == 1
    ensures !s'.slots[1].exitFlag && s'.q.ring.capacity > 0
  {
    var s1 := Pushes(c, within, Initial(c), 0);
    s' := Takes(c, within, s1, 0);
  }

  /** Nor does it take such a moment: the two loads of getStatus can lie on either side of the
      start, the counting and the first task of a new thread. The statistics of that thread have
      to wait for status_mutex_, which getStatus holds. */
  lemma StatusCanExceedOneCounted(c: Config)
    requires ValidateConfigBasic(c).Accepted?
    requires c.coreThreads == 1 && c.maxThreads > 1 && c.expandFactor <= 1.0
    ensures exists past, future ::
              && After(c, past).manager == Idle && After(c, past + future).manager == RecordThread
              && Readings.StatusFactor(c, past, future) == 2.0
  {
    ReachableIsClosed(c);
    var s := OneActive(c, Within(c));
    var past :| s == After(c, past);
    LaterIsClosed(c, past);
    var s' := CountsAndOutnumbers(c, From(c, past), s);
    var future :| s' == After(c, past + future);
    assert Readings.StatusFactor(c, past, future) == 2.0;
  }

  lemma TakesSecond(c: Config, within: Pool -> bool) returns (s': Pool)
    requires Closed(c, within) && within(Initial(c)) && Usable(c)
    requires c.coreThreads == 1 && c.maxThreads == 2 && c.consecutiveIdleCount == 1
    requires 0.5 < c.removeFactor && c.expandFactor <= 1.0
    ensures within(s') && Shaped(c, s') && s'.manager == Retire(1) && s'.lock == Free
    ensures s'.slots[1].pc.Executing? && s'.slots[1].idle == 0
  {
    var s1 := Pushes(c, within, Initial(c), 0);
    var s2 := Takes(c, within, s1, 0);
    var s3 := Grows(c, within, s2);
    var s4 := Records(c, within, s3);
    var s5 := Shrinks(c, within, s4);
    var s6 := Pushes(c, within, s5, 1);
    s' := Takes(c, within, s6, 1);
  }

  /** The decision to retire a worker and the flag that tells it are two steps. A worker that
      takes a task in between is told to exit with no idle scan since that task. */
  lemma RetiredWhileBusy(c: Config)
    requires ValidateConfigBasic(c).Accepted?
    requires c.coreThreads == 1 && c.maxThreads == 2 && c.consecutiveIdleCount == 1
    requires 0.5 < c.removeFactor && c.expandFactor <= 1.0
    ensures exists actions ::
              var w := After(c, actions).slots[1];
              w.exitFlag && w.pc.Executing? && w.idle == 0
  {
    ReachableIsClosed(c);
    var s := TakesSecond(c, Within(c));
    var s' := Retires(c, Within(c), s, 1);
    assert Reachable(c, s');
  }

  /** The second worker is in the middle of a task while the first one is free again. */
  lemma LongTask(c: Config, within: Pool -> bool) returns (s': Pool)
    requires Closed(c, within) && within(Initial(c)) && Usable(c)
    requires c.coreThreads == 1 && c.maxThreads == 2 && c.expandFactor <= 1.0
    ensures within(s') && Shaped(c, s') && s'.manager == Idle && s'.control == Outside && s'.state == Running
    ensures s'.size == |s'.slots| == s'.threadCount == 2 && s'.active == 1 && s'.lock == Free && !s'.stopped
    ensures s'.slots[1].pc.Executing? && !s'.slots[1].exitFlag && AtTop(s', 0) && s'.q.ring.items == []
    ensures s'.submits == map[0 := Pushed, 1 := Pushed] && s'.q.ring.capacity > 0
    ensures !c.enableDynamicThread ==> s'.balancer == Gone
  {
    var s1 := Pushes(c, within, Initial(c), 0);
    var s2 := Takes(c, within, s1, 0);
    var s3 := Grows(c, within, s2);
    var s4 := Records(c, within, s3);
    var s5 := Pushes(c, within, s4, 1);
    var s6 := Takes(c, within, s5, 1);
    s' := Finishes(c, within, s6, 0);
  }

  /** From the decision to the flag the second worker is inside the same task. */
  ghost predicate FlaggedBusy(c: Config, s: Pool, s': Pool) {
    && 1 < |s.slots| == |s'.slots| && s.manager == TestIdle(1)
    && s.slots[1].pc.Executing? && s'.slots[1].pc == s.slots[1].pc
    && s'.slots[1].exitFlag && s'.slots[1].idle >= c.consecutiveIdleCount
  }

  lemma RetiresBusyWorker(c: Config, s: Pool)
    requires Shaped(c, s) && s.manager == TestIdle(1) && 1 < |s.slots| && s.lock == Free
    requires s.slots[1].pc.Executing? && s.slots[1].idle >= c.consecutiveIdleCount
    ensures Next(c, s, Manage(true)) == s.(manager := Retire(1))
    ensures FlaggedBusy(c, s, Next(c, s.(manager := Retire(1)), Manage(true)))
  {
  }

  /** The idle count is about the time since the last task was taken, not about being idle: the
      load check, with nobody else moving between its decision and the flag, can tell a worker to
      exit that has been in the middle of one long task all the time. */
  lemma RetiredInLongTask(c: Config)
    requires ValidateConfigBasic(c).Accepted?
    requires c.coreThreads == 1 && c.maxThreads == 2 && c.consecutiveIdleCount <= 1
    requires 0.5 < c.removeFactor && c.expandFactor <= 1.0
    ensures exists actions ::
              FlaggedBusy(c, After(c, actions), After(c, actions + [Manage(true)] + [Manage(true)]))
  {
    ReachableIsClosed(c);
    var s := LongTask(c, Within(c));
    var s' := Scans(c, Within(c), s);
    RetiresBusyWorker(c, s');
    var actions :| s' == After(c, actions);
    AfterStep(c, actions, Manage(true));
    AfterStep(c, actions + [Manage(true)], Manage(true));
  }

  /** One of two threads has been retired and has ended, and the other one executes a task. */
  lemma RetiresAndBusy(c: Config, within: Pool -> bool) returns (s': Pool)
    requires Closed(c, within) && within(Initial(c)) && Usable(c) && ReusesSlots(c)
    ensures within(s') && Shaped(c, s') && s'.manager == Idle && s'.control == Outside && s'.state == Running
    ensures !s'.stopped && s'.size == s'.threadCount == 2 && s'.active == 1
    ensures s'.slots[1].pc == Exited && s'.slots[1].exitFlag && s'.slots[1].joinable
  {
    var s1 := TwoWorkers(c, within);
    assert LoadFactor(0, 2) == 0.0;
    var s2 := Shrinks(c, within, s1);
    forall i | 0 <= i < |s2.slots| ensures !IsAsleep(s2.slots, i) {
      assert !IsAsleep(s1.slots, i);
    }
    var s3 := Flags(c, within, s2);
    var s4 := Works(c, within, s3, 1);
    var s5 := Pushes(c, within, s4, 1);
    s' := Takes(c, within, s5, 0);
    assert s'.slots[1] == s4.slots[1];
  }

  ghost predicate ReusesSlots(c: Config) {
    && c.coreThreads == 1 && c.maxThreads == 3 && c.consecutiveIdleCount == 1 && !c.enableDynamicThread
    && 0.0 < c.removeFactor && 0.0 < c.expandFactor <= 0.5 && 0 < c.taskLimit && 0.0 <= c.avgTaskThreshold
  }

  /** A second worker was started while the first one was busy, and both are idle. */
  lemma TwoWorkers(c: Config, within: Pool -> bool) returns (s': Pool)
    requires Closed(c, within) && within(Initial(c)) && Usable(c) && ReusesSlots(c)
    ensures within(s') && Shaped(c, s') && s'.manager == Idle && s'.control == Outside && s'.state == Running
    ensures !s'.stopped && s'.size == s'.threadCount == 2 && s'.active == 0 && s'.pending == 0 && s'.lock == Free
    ensures s'.balancer == Gone && s'.submits == map[0 := Done] && s'.q.ring.items == [] && s'.q.ring.capacity > 0
    ensures Ready(s', 0) && Ready(s', 1) && s'.slots[1].joinable && NoneAsleep(s'.slots)
  {
    var s1 := Pushes(c, within, Initial(c), 0);
    var s2 := Submits(c, within, s1, 0);
    var s3 := Notifies(c, within, s2, 0);
    var s4 := Takes(c, within, s3, 0);
    var s5 := Grows(c, within, s4);
    var s6 := Records(c, within, s5);
    s' := Finishes(c, within, s6, 0);
  }

  lemma HalfExpands(c: Config, pending: int)
    requires ReusesSlots(c)
    ensures ShouldExpand(c, 1, 2, pending)
  {
    assert LoadFactor(1, 2) == 0.5;
  }

  ghost predicate SecondIsDead(s: Pool) {
    1 < |s.slots| && Creation.Dead(s.slots[1])
  }

  /** A thread that is started in the slot of a retired one can see the old exit flag and leave at
      once. The flag is cleared after that, so the slot counts as a thread for good and is passed
      over by every search for a slot. */
  lemma NewThreadCanBeLost(c: Config)
    requires ValidateConfigBasic(c).Accepted? && ReusesSlots(c)
    ensures exists actions :: SecondIsDead(After(c, actions))
  {
    ReachableIsClosed(c);
    var s := RetiresAndBusy(c, Within(c));
    HalfExpands(c, s.pending);
    var s1 := Respawns(c, Within(c), s);
    var s2 := ClearsLate(c, Within(c), s1);
    assert Reachable(c, s2) && SecondIsDead(s2);
  }

  // ----- submit calls that stop leaves behind -----

  /** A submit call waits for room in a full queue. */
  ghost predicate Blocked(s: Pool, t: Task) {
    t in s.submits && s.submits[t] == Chosen(Blocking) && s.q.ring.Full()
  }

  ghost predicate OneBlockingWorker(c: Config) {
    c.maxThreads == 1 && c.maxQueueSize == 1 && c.policy == Blocking && !c.enableDynamicThread
  }

  lemma BlocksTwo(c: Config, within: Pool -> bool) returns (s': Pool)
    requires Closed(c, within) && within(Initial(c)) && Usable(c) && OneBlockingWorker(c)
    ensures within(s') && Shaped(c, s') && Blocked(s', 1) && Blocked(s', 2) && s'.q.ring.items == [0]
    ensures s'.state == Running && s'.control == Outside
    ensures s'.lock == Free && Ready(s', 0) && |s'.slots| == s'.size == 1
    ensures s'.manager == Idle && s'.balancer == Gone
  {
    var s1 := Pushes(c, within, Initial(c), 0);
    var s2 := Chooses(c, within, s1, 1);
    s' := Chooses(c, within, s2, 2);
  }

  lemma ForcedReturn(c: Config, within: Pool -> bool, s: Pool) returns (s': Pool)
    requires Closed(c, within) && within(s) && Shaped(c, s) && s.q.ring.items == [0]
    requires s.state == Running && s.control == Outside && s.lock == Free && Ready(s, 0) && |s.slots| == s.size == 1
    requires s.manager == Idle && s.balancer == Gone
    ensures within(s') && Shaped(c, s') && s'.control == Returned && s'.q.ring.items == []
    ensures s'.submits == s.submits && s'.q.ring.capacity == s.q.ring.capacity
  {
    var s1 := Forces(c, within, s);
    var s2 := Drains(c, within, s1);
    var s3 := LeavesDrain(c, within, s2);
    var s4 := Stops(c, within, s3);
    var s5 := Exits(c, within, s4, 0);
    s' := Returns(c, within, s5);
  }

  /** One blocked call can push after stop has returned, and that blocks the other for ever. */
  ghost predicate PushesLate(c: Config, s: Pool)
    requires Shaped(c, s)
  {
    && s.control == Returned && 1 !in s.q.pushed
    && var s' := Next(c, s, ContinueSubmit(1, 0));
       s'.control == Returned && s'.q.ring.items == [1] && Blocked(s', 2)
  }

  lemma PushesAfterReturn(c: Config, s: Pool)
    requires Invariants.Inv(c, s) && s.control == Returned && s.q.ring.items == [] && s.q.ring.capacity == 1
    requires 1 in s.submits && s.submits[1] == Chosen(Blocking)
    requires 2 in s.submits && s.submits[2] == Chosen(Blocking)
    ensures PushesLate(c, s)
  {
    assert Accounting.Distinct(s);
  }

  /** Two calls are blocked on a full queue when shutdown(FORCE) begins. After it has returned
      one of them pushes its task, and the other one is still blocked. */
  lemma StopStrandsSubmits(c: Config)
    requires ValidateConfigBasic(c).Accepted? && OneBlockingWorker(c)
    ensures exists past, future ::
              Blocked(After(c, past), 1) && Blocked(After(c, past), 2) && PushesLate(c, After(c, past + future))
  {
    ReachableIsClosed(c);
    var s := BlocksTwo(c, Within(c));
    var past :| s == After(c, past);
    LaterIsClosed(c, past);
    var s' := ForcedReturn(c, From(c, past), s);
    var future :| s' == After(c, past + future);
    AfterInv(c, past + future);
    PushesAfterReturn(c, s');
  }

  /** Every worker has gone and no submit call has come yet, but the state is still running. */
  ghost predicate Vacated(s: Pool) {
    && (forall i :: 0 <= i < |s.slots| ==> s.slots[i].pc == Exited)
    && s.state == Running && s.submits == map[]
  }

  ghost predicate Joining(s: Pool) {
    && Vacated(s) && |s.slots| == s.size == 1 && s.control == JoinBalancer && s.q.ring.items == []
    && s.manager == Idle && s.balancer == Gone && s.q.ring.capacity == 1
  }

  ghost predicate ReturnedWith(s: Pool, t: Task) {
    s.control == Returned && s.q.ring.items == [t]
  }

  lemma AllExit(c: Config, within: Pool -> bool) returns (s': Pool)
    requires Closed(c, within) && within(Initial(c)) && Usable(c) && OneBlockingWorker(c)
    ensures within(s') && Shaped(c, s') && Joining(s')
  {
    var s1 := Next(c, Initial(c), StopPool);
    var s2 := Stops(c, within, s1);
    s' := Exits(c, within, s2, 0);
  }

  lemma ReturnsWithTask(c: Config, within: Pool -> bool, s: Pool) returns (s': Pool)
    requires Closed(c, within) && within(s) && Shaped(c, s) && Joining(s)
    ensures within(s') && ReturnedWith(s', 0)
  {
    var s1 := Pushes(c, within, s, 0);
    s' := Returns(c, within, s1);
  }

  /** A direct stop leaves the pool running until its end: a submit call is let in after every
      worker has gone, and its task is in the queue when stop returns. */
  lemma StopAdmitsTask(c: Config)
    requires ValidateConfigBasic(c).Accepted? && OneBlockingWorker(c)
    ensures exists past, future :: Vacated(After(c, past)) && ReturnedWith(After(c, past + future), 0)
  {
    ReachableIsClosed(c);
    var s := AllExit(c, Within(c));
    var past :| s == After(c, past);
    LaterIsClosed(c, past);
    var s' := ReturnsWithTask(c, From(c, past), s);
    var future :| s' == After(c, past + future);
  }

  /** The only worker is in the pause loop, a task is queued, and every call has returned. */
  ghost predicate PausedWithTask(s: Pool, t: Task) {
    && s.state == Paused && s.control == Outside && s.lock == Free && !s.stopped && Quiet(s)
    && |s.slots| == s.size == 1 && s.slots[0].pc == PauseSpin && s.q.ring.items == [t]
    && s.manager == Idle && s.balancer == Gone
  }

  lemma QueuesAndPauses(c: Config, within: Pool -> bool) returns (s': Pool)
    requires Closed(c, within) && within(Initial(c)) && Usable(c) && OneBlockingWorker(c)
    ensures within(s') && Shaped(c, s') && PausedWithTask(s', 0)
  {
    var s1 := Pushes(c, within, Initial(c), 0);
    var s2 := Submits(c, within, s1, 0);
    var s3 := Notifies(c, within, s2, 0);
    var s4 := Next(c, s3, PausePool);
    var s5 := Works(c, within, s4, 0);
    s' := Works(c, within, s5, 0);
  }

  lemma StopsPaused(c: Config, within: Pool -> bool, s: Pool) returns (s': Pool)
    requires Closed(c, within) && within(s) && Shaped(c, s) && PausedWithTask(s, 0)
    ensures within(s') && ReturnedWith(s', 0) && s'.submits == s.submits
  {
    var s1 := Next(c, s, StopPool);
    var s2 := Stops(c, within, s1);
    var s3 := Works(c, within, s2, 0);
    var s4 := Works(c, within, s3, 0);
    s' := Returns(c, within, s4);
  }

  /** A direct stop of a paused pool leaves a task in the queue although no submit call is let in:
      the worker leaves the pause without a look at the queue. */
  lemma PausedStopLeavesTask(c: Config)
    requires ValidateConfigBasic(c).Accepted? && OneBlockingWorker(c)
    ensures exists past, future ::
              && PausedWithTask(After(c, past), 0) && ReturnedWith(After(c, past + future), 0)
              && After(c, past + future).submits == After(c, past).submits
  {
    ReachableIsClosed(c);
    var s := QueuesAndPauses(c, Within(c));
    var past :| s == After(c, past);
    LaterIsClosed(c, past);
    var s' := StopsPaused(c, From(c, past), s);
    var future :| s' == After(c, past + future);
  }

  /** The core worker leaves an empty queue, and the other one is told to exit and still busy. */
  ghost predicate OneFlagged(s: Pool) {
    && |s.slots| == s.size == 2 && s.slots[0].pc == Exited && s.slots[1].pc.Executing? && s.slots[1].exitFlag
    && s.control == JoinBalancer && s.state == Running && s.lock == Free && s.q.ring.items == []
    && s.manager == Idle && s.balancer == Gone && 2 !in s.submits && s.q.ring.capacity > 0
  }

  lemma StopsFlagged(c: Config, within: Pool -> bool) returns (s': Pool)
    requires Closed(c, within) && within(Initial(c)) && Usable(c)
    requires c.coreThreads == 1 && c.maxThreads == 2 && c.consecutiveIdleCount == 1 && !c.enableDynamicThread
    requires 0.5 < c.removeFactor && c.expandFactor <= 1.0
    ensures within(s') && Shaped(c, s') && OneFlagged(s')
  {
    var s1 := LongTask(c, within);
    var s2 := Shrinks(c, within, s1);
    var s3 := Flags(c, within, s2);
    var s4 := Next(c, s3, StopPool);
    assert s4 == s3.(control := StopBalancer);
    var s5 := Stops(c, within, s4);
    s' := Exits(c, within, s5, 0);
  }

  lemma FlaggedReturns(c: Config, within: Pool -> bool, s: Pool) returns (s': Pool)
    requires Closed(c, within) && within(s) && Shaped(c, s) && OneFlagged(s)
    ensures within(s') && ReturnedWith(s', 2)
  {
    var s1 := Pushes(c, within, s, 2);
    var s2 := Finishes(c, within, s1, 1);
    var s3 := Works(c, within, s2, 1);
    s' := JoinsBoth(c, within, s3);
  }

  lemma JoinsBoth(c: Config, within: Pool -> bool, s: Pool) returns (s': Pool)
    requires Closed(c, within) && within(s) && Shaped(c, s) && s.control == JoinBalancer
    requires s.balancer == Gone && s.manager == Idle
    requires |s.slots| == s.size == 2 && s.slots[0].pc == s.slots[1].pc == Exited
    ensures within(s') && s'.control == Returned && s'.q == s.q
  {
    var s1 := StartsJoining(c, within, s);
    var s2 := Joins(c, within, s1, 0);
    var s3 := Joins(c, within, s2, 1);
    s' := EndsJoining(c, within, s3);
  }

  /** Nor need all workers have gone when the task comes: a worker that was told to exit leaves at
      the top of its loop without a look at the queue. */
  lemma FlaggedStopLeavesTask(c: Config)
    requires ValidateConfigBasic(c).Accepted?
    requires c.coreThreads == 1 && c.maxThreads == 2 && c.consecutiveIdleCount == 1 && !c.enableDynamicThread
    requires 0.5 < c.removeFactor && c.expandFactor <= 1.0
    ensures exists past, future :: OneFlagged(After(c, past)) && ReturnedWith(After(c, past + future), 2)
  {
    ReachableIsClosed(c);
    var s := StopsFlagged(c, Within(c));
    var past :| s == After(c, past);
    LaterIsClosed(c, past);
    var s' := FlaggedReturns(c, From(c, past), s);
    var future :| s' == After(c, past + future);
  }
}
