/** Stretches of runs, to be put together into runs that end in a given state. */
module Witnesses {
  import opened Configs
  import opened Pools
  import opened Steps
  import opened Runs
  import opened StepForms

  /** A set of pools that no step leads out of. The stretches stay inside every such set,
      and the reachable pools are one. */
  ghost predicate Closed(c: Config, within: Pool -> bool) {
    forall s, a {:trigger Next(c, s, a)} :: Shaped(c, s) && within(s) ==> within(Next(c, s, a))
  }

  // ----- single steps -----

  ghost predicate Worked(s: Pool, s': Pool, i: nat, pc: WorkerPc)
    requires i < |s.slots|
  {
    var from := s.slots[i].pc;
    && |s'.slots| == |s.slots|
    && s'.slots[i].pc == pc && s'.slots[i].exitFlag == s.slots[i].exitFlag
    && s'.slots[i].joinable == s.slots[i].joinable
    && (from.Activated? ==> s'.slots[i].idle == 0)
    && (!from.Activated? ==> s'.slots[i].idle == s.slots[i].idle)
    && (forall j :: 0 <= j < |s.slots| && j != i ==> s'.slots[j] == s.slots[j])
    && s'.lock == (if Holds(pc) then Worker(i) else if Holds(from) then Free else s.lock)
    && s'.q.ring.items
       == (if from.Dequeuing? && s.q.ring.items != [] then s.q.ring.items[1..] else s.q.ring.items)
    && s'.active == s.active + (if from.Got? then 1 else 0) - (if from.Unactive? then 1 else 0)
    && s'.pending == s.pending - (if from.Uncount? then 1 else 0)
    && s'.control == (if from.Announce? && s.control == AsleepWait then WantWait else s.control)
    && s'.state == s.state && s'.stopped == s.stopped && s'.submits == s.submits && s'.policy == s.policy
    && s'.size == s.size && s'.threadCount == s.threadCount && s'.manager == s.manager
    && s'.balancer == s.balancer && s'.checkers == s.checkers && s'.past.shutdowns == s.past.shutdowns
    && s'.q.ring.overrun == s.q.ring.overrun && s'.q.ring.capacity == s.q.ring.capacity
  }

  lemma Works(c: Config, within: Pool -> bool, s: Pool, i: nat) returns (s': Pool)
    requires Closed(c, within) && within(s) && Shaped(c, s) && i < |s.slots|
    requires NextWorkerPc(s, s.slots[i], true) != s.slots[i].pc
    ensures within(s') && Shaped(c, s') && Worked(s, s', i, NextWorkerPc(s, s.slots[i], true))
  {
    s' := Next(c, s, Work(i, true));
  }

  ghost predicate OnlyTasks(s: Pool, s': Pool) {
    && s'.slots == s.slots && s'.lock == s.lock && s'.control == s.control && s'.state == s.state
    && s'.stopped == s.stopped && s'.size == s.size && s'.threadCount == s.threadCount
    && s'.manager == s.manager && s'.balancer == s.balancer && s'.active == s.active
    && s'.policy == s.policy && s'.checkers == s.checkers && s'.past == s.past
  }

  lemma Begins(c: Config, within: Pool -> bool, s: Pool, t: Task) returns (s': Pool)
    requires Closed(c, within) && within(s) && Shaped(c, s) && s.state == Running && t !in s.submits
    ensures within(s') && Shaped(c, s') && OnlyTasks(s, s') && s'.q == s.q && s'.pending == s.pending
    ensures s'.submits == s.submits[t := Checked]
  {
    s' := Next(c, s, BeginSubmit(t));
  }

  lemma Submits(c: Config, within: Pool -> bool, s: Pool, t: Task) returns (s': Pool)
    requires Closed(c, within) && within(s) && Shaped(c, s) && t in s.submits && !s.submits[t].Counted?
    requires NextSubmitPc(s, s.submits[t], 0) != s.submits[t]
    ensures within(s') && Shaped(c, s') && OnlyTasks(s, s')
    ensures s'.submits == s.submits[t := NextSubmitPc(s, s.submits[t], 0)]
    ensures s'.pending == s.pending + (if s.submits[t].Pushed? then 1 else 0)
    ensures !s.submits[t].Chosen? ==> s'.q == s.q
    ensures s.submits[t].Chosen? && s'.submits[t].Pushed? ==> s'.q == s.q.EnqueueNoWait(t)
  {
    s' := Next(c, s, ContinueSubmit(t, 0));
  }

  lemma Notifies(c: Config, within: Pool -> bool, s: Pool, t: Task) returns (s': Pool)
    requires Closed(c, within) && within(s) && Shaped(c, s) && t in s.submits && s.submits[t].Counted?
    requires s.lock == Free && NoneAsleep(s.slots)
    ensures within(s') && Shaped(c, s') && OnlyTasks(s, s') && s'.q == s.q && s'.pending == s.pending
    ensures s'.submits == s.submits[t := Done]
  {
    s' := Next(c, s, ContinueSubmit(t, 0));
  }

  ghost predicate OnlyControl(s: Pool, s': Pool) {
    && s'.slots == s.slots && s'.q == s.q && s'.stopped == s.stopped && s'.submits == s.submits
    && s'.pending == s.pending && s'.manager == s.manager && s'.balancer == s.balancer
    && s'.checkers == s.checkers && s'.size == s.size && s'.policy == s.policy
  }

  lemma BeginsWait(c: Config, within: Pool -> bool, s: Pool) returns (s': Pool)
    requires Closed(c, within) && within(s) && Shaped(c, s) && s.state == Running && s.control == Outside
    ensures within(s') && Shaped(c, s') && OnlyControl(s, s') && s'.lock == s.lock
    ensures s'.state == ShuttingDown && s'.control == WantWait
    ensures s'.past == s.past.(shutdowns := s.past.shutdowns + 1, option := WaitAll, quiet := Quiet(s))
  {
    s' := Next(c, s, Shutdown(WaitAll));
  }

  /** shutdown(WAIT_ALL) up to the wait for wait_cv_. */
  lemma WaitsForAll(c: Config, within: Pool -> bool, s: Pool) returns (s': Pool)
    requires Closed(c, within) && within(s) && Shaped(c, s)
    requires s.state == Running && s.control == Outside && s.lock == Free && s.pending != 0
    ensures within(s') && Shaped(c, s') && OnlyControl(s, s')
    ensures s'.state == ShuttingDown && s'.control == AsleepWait && s'.lock == Free
    ensures Quiet(s) && s.past.shutdowns == 0 ==> s'.past.shutdowns == 1 && s'.past.quiet && s'.past.option == WaitAll
  {
    var s1 := BeginsWait(c, within, s);
    var s2 := Next(c, s1, Control(false));
    assert s2 == s1.(control := EvalWait, lock := Controller);
    s' := Next(c, s2, Control(false));
    assert s' == s1.(control := AsleepWait);
  }

  // ----- longer stretches -----

  /** The task is in the queue and its submit call has not counted it yet. */
  lemma Pushes(c: Config, within: Pool -> bool, s: Pool, t: Task) returns (s': Pool)
    requires Closed(c, within) && within(s) && Shaped(c, s) && s.state == Running && t !in s.submits
    requires s.q.ring.capacity > 0 && !s.q.ring.Full()
    ensures within(s') && Shaped(c, s') && OnlyTasks(s, s') && s'.pending == s.pending
    ensures s'.submits == s.submits[t := Pushed] && s'.q.ring.items == s.q.ring.items + [t]
  {
    var s1 := Begins(c, within, s, t);
    var s2 := Submits(c, within, s1, t);
    s' := Submits(c, within, s2, t);
    assert s'.submits == s.submits[t := Pushed];
  }

  ghost predicate SameRest(s: Pool, s': Pool, i: nat) {
    && |s'.slots| == |s.slots|
    && (forall j :: 0 <= j < |s.slots| && j != i ==> s'.slots[j] == s.slots[j])
    && s'.control == s.control && s'.state == s.state && s'.stopped == s.stopped
    && s'.submits == s.submits && s'.policy == s.policy && s'.size == s.size
    && s'.threadCount == s.threadCount && s'.manager == s.manager && s'.balancer == s.balancer
    && s'.checkers == s.checkers && s'.past.shutdowns == s.past.shutdowns
    && s'.q.ring.overrun == s.q.ring.overrun && s'.q.ring.capacity == s.q.ring.capacity
  }

  ghost predicate AtTop(s: Pool, i: nat) {
    i < |s.slots| && s.slots[i].pc == Top && !s.slots[i].exitFlag && s.state != Paused && s.lock == Free
  }

  ghost predicate Ready(s: Pool, i: nat) {
    AtTop(s, i) && s.state != ForceShutting && !s.stopped
  }

  lemma Looks(c: Config, within: Pool -> bool, s: Pool, i: nat) returns (s': Pool)
    requires Closed(c, within) && within(s) && Shaped(c, s) && AtTop(s, i)
    ensures within(s') && Shaped(c, s') && SameRest(s, s', i) && s'.lock == Worker(i)
    ensures s'.slots[i].pc == Looking && !s'.slots[i].exitFlag
    ensures s'.q.ring.items == s.q.ring.items && s'.pending == s.pending && s'.active == s.active
  {
    var s1 := Works(c, within, s, i);
    var s2 := Works(c, within, s1, i);
    s' := Works(c, within, s2, i);
  }

  lemma Grabs(c: Config, within: Pool -> bool, s: Pool, i: nat) returns (s': Pool)
    requires Closed(c, within) && within(s) && Shaped(c, s) && Ready(s, i) && s.q.ring.items != []
    ensures within(s') && Shaped(c, s') && SameRest(s, s', i) && s'.lock == Worker(i)
    ensures s'.slots[i].pc.Got? && !s'.slots[i].exitFlag
    ensures s'.q.ring.items == s.q.ring.items[1..] && s'.pending == s.pending && s'.active == s.active
  {
    var s3 := Looks(c, within, s, i);
    var s4 := Works(c, within, s3, i);
    var s5 := Works(c, within, s4, i);
    var s6 := Works(c, within, s5, i);
    s' := Works(c, within, s6, i);
  }

  lemma Takes(c: Config, within: Pool -> bool, s: Pool, i: nat) returns (s': Pool)
    requires Closed(c, within) && within(s) && Shaped(c, s) && Ready(s, i) && s.q.ring.items != []
    ensures within(s') && Shaped(c, s') && SameRest(s, s', i) && s'.lock == Free
    ensures s'.slots[i].pc.Executing? && !s'.slots[i].exitFlag && s'.slots[i].idle == 0
    ensures s'.q.ring.items == s.q.ring.items[1..] && s'.pending == s.pending && s'.active == s.active + 1
  {
    var s7 := Grabs(c, within, s, i);
    var s8 := Works(c, within, s7, i);
    var s9 := Works(c, within, s8, i);
    s' := Works(c, within, s9, i);
  }

  lemma Relocks(c: Config, within: Pool -> bool, s: Pool, i: nat) returns (s': Pool)
    requires Closed(c, within) && within(s) && Shaped(c, s) && i < |s.slots|
    requires s.slots[i].pc.Executing? && s.lock == Free
    ensures within(s') && Shaped(c, s') && SameRest(s, s', i) && s'.lock == Worker(i)
    ensures s'.slots[i].pc == Uncount && s'.slots[i].exitFlag == s.slots[i].exitFlag
    ensures s'.q.ring.items == s.q.ring.items && s'.pending == s.pending && s'.active == s.active
  {
    var s1 := Works(c, within, s, i);
    var s2 := Works(c, within, s1, i);
    s' := Works(c, within, s2, i);
  }

  lemma Finishes(c: Config, within: Pool -> bool, s: Pool, i: nat) returns (s': Pool)
    requires Closed(c, within) && within(s) && Shaped(c, s) && i < |s.slots|
    requires s.slots[i].pc.Executing? && s.lock == Free && s.control != AsleepWait
    ensures within(s') && Shaped(c, s') && SameRest(s, s', i) && s'.lock == Free
    ensures s'.slots[i].pc == Top && s'.slots[i].exitFlag == s.slots[i].exitFlag
    ensures s'.q.ring.items == s.q.ring.items && s'.pending == s.pending - 1 && s'.active == s.active - 1
  {
    var s3 := Relocks(c, within, s, i);
    var s4 := Uncounts(c, within, s3, i);
    s' := Works(c, within, s4, i);
  }

  lemma Uncounts(c: Config, within: Pool -> bool, s: Pool, i: nat) returns (s': Pool)
    requires Closed(c, within) && within(s) && Shaped(c, s) && i < |s.slots|
    requires s.slots[i].pc == Uncount && s.lock == Worker(i)
    ensures within(s') && Shaped(c, s') && SameRest(s, s', i) && s'.lock == Worker(i)
    ensures s'.slots[i].pc == Announce && s'.slots[i].exitFlag == s.slots[i].exitFlag
    ensures s'.q.ring.items == s.q.ring.items && s'.pending == s.pending - 1 && s'.active == s.active - 1
  {
    var s1 := Works(c, within, s, i);
    var s2 := Works(c, within, s1, i);
    s' := Works(c, within, s2, i);
  }

  lemma FallsAsleep(c: Config, within: Pool -> bool, s: Pool, i: nat) returns (s': Pool)
    requires Closed(c, within) && within(s) && Shaped(c, s) && Ready(s, i) && s.q.ring.items == []
    ensures within(s') && Shaped(c, s') && SameRest(s, s', i) && s'.lock == Free
    ensures s'.slots[i].pc == Asleep
    ensures s'.q.ring.items == [] && s'.pending == s.pending
  {
    var s3 := Looks(c, within, s, i);
    var s4 := Works(c, within, s3, i);
    s' := Works(c, within, s4, i);
  }

  /** loadCheck is called from outside and has read the active threads. */
  lemma ChecksLoad(c: Config, within: Pool -> bool, s: Pool) returns (s': Pool)
    requires Closed(c, within) && within(s) && Shaped(c, s)
    requires s.manager == Idle && s.control == Outside && s.state == Running
    ensures within(s') && Shaped(c, s') && s' == s.(manager := ReadPending(s.active))
  {
    var s0 := Next(c, s, CheckLoad);
    assert s0 == s.(checkers := s.checkers + 1);
    var s1 := Next(c, s0, EnterCheck);
    assert s1 == s.(manager := ReadActive);
    s' := Next(c, s1, Manage(true));
  }

  /** loadCheck decides for another thread and starts it in a new slot. */
  lemma Grows(c: Config, within: Pool -> bool, s: Pool) returns (s': Pool)
    requires Closed(c, within) && within(s) && Shaped(c, s)
    requires s.manager == Idle && s.control == Outside && s.state == Running && !s.stopped
    requires c.coreThreads == s.size == 1 && c.maxThreads > 1 && s.active == s.threadCount == 1
    requires c.expandFactor <= 1.0
    ensures within(s') && Shaped(c, s') && s'.manager == CountThread
    ensures s'.slots == s.slots[1 := s.slots[1].(pc := Top, joinable := true)]
    ensures s' == s.(slots := s'.slots, size := 2, manager := CountThread)
  {
    var s2 := ChecksLoad(c, within, s);
    assert ShouldExpand(c, 1, 1, s.pending);
    var s3 := Next(c, s2, Manage(true));
    assert s3 == s.(manager := Create);
    var s4 := Next(c, s3, Manage(true));
    assert s4 == s.(manager := Emplace);
    s' := Next(c, s4, Manage(true));
  }

  /** loadCheck decides for fewer threads. */
  lemma StartsScan(c: Config, within: Pool -> bool, s: Pool) returns (s': Pool)
    requires Closed(c, within) && within(s) && Shaped(c, s)
    requires s.manager == Idle && s.control == Outside && s.state == Running
    requires ShouldShrink(c, s.active, s.threadCount) && !ShouldExpand(c, s.active, s.threadCount, s.pending)
    ensures within(s') && Shaped(c, s') && s' == s.(manager := Scan(c.coreThreads))
  {
    var s2 := ChecksLoad(c, within, s);
    s' := Next(c, s2, Manage(true));
  }

  /** It finds that the second worker has taken no task for long. */
  lemma Scans(c: Config, within: Pool -> bool, s: Pool) returns (s': Pool)
    requires Closed(c, within) && within(s) && Shaped(c, s)
    requires s.manager == Idle && s.control == Outside && s.state == Running && c.coreThreads == 1 && s.size == 2
    requires ShouldShrink(c, s.active, s.threadCount) && !ShouldExpand(c, s.active, s.threadCount, s.pending)
    requires !s.slots[1].exitFlag
    ensures within(s') && Shaped(c, s')
    ensures s' == s.(slots := s.slots[1 := s.slots[1].(idle := s.slots[1].idle + 1)], manager := TestIdle(1))
  {
    var s3 := StartsScan(c, within, s);
    s' := Next(c, s3, Manage(true));
  }

  /** It makes up its mind to retire that worker. */
  lemma Shrinks(c: Config, within: Pool -> bool, s: Pool) returns (s': Pool)
    requires Closed(c, within) && within(s) && Shaped(c, s)
    requires s.manager == Idle && s.control == Outside && s.state == Running && c.coreThreads == 1 && s.size == 2
    requires ShouldShrink(c, s.active, s.threadCount) && !ShouldExpand(c, s.active, s.threadCount, s.pending)
    requires c.consecutiveIdleCount == 1 && !s.slots[1].exitFlag
    ensures within(s') && Shaped(c, s')
    ensures s' == s.(slots := s.slots[1 := s.slots[1].(idle := s.slots[1].idle + 1)], manager := Retire(1))
  {
    var s4 := Scans(c, within, s);
    s' := Next(c, s4, Manage(true));
  }

  /** The worker is told. */
  lemma Flags(c: Config, within: Pool -> bool, s: Pool) returns (s': Pool)
    requires Closed(c, within) && within(s) && Shaped(c, s) && s.manager == Retire(1) && 1 < |s.slots|
    requires s.lock == Free && NoneAsleep(s.slots) && s.balancer == Gone
    ensures within(s') && Shaped(c, s')
    ensures s' == s.(slots := s.slots[1 := s.slots[1].(exitFlag := true)], manager := Idle)
  {
    s' := Next(c, s, Manage(true));
    var slots := s.slots[1 := s.slots[1].(exitFlag := true)];
    forall i | 0 <= i < |slots| ensures WakeAll(slots)[i] == slots[i] {
      assert !IsAsleep(s.slots, i);
    }
    assert WakeAll(slots) == slots;
  }

  /** loadCheck decides for another thread, finds the flagged slot, joins its thread and starts a
      new one in it. */
  lemma Respawns(c: Config, within: Pool -> bool, s: Pool) returns (s': Pool)
    requires Closed(c, within) && within(s) && Shaped(c, s)
    requires s.manager == Idle && s.control == Outside && s.state == Running && !s.stopped
    requires ShouldExpand(c, s.active, s.threadCount, s.pending) && c.coreThreads == 1 && s.size == 2
    requires s.slots[1].pc == Exited && s.slots[1].exitFlag && s.slots[1].joinable
    ensures within(s') && Shaped(c, s') && s'.manager == ResetIdle(1) && |s'.slots| == |s.slots|
    ensures s'.slots[1] == s.slots[1].(pc := Top)
  {
    var s3 := Joins1(c, within, s);
    s' := Next(c, s3, Manage(true));
  }

  lemma Joins1(c: Config, within: Pool -> bool, s: Pool) returns (s': Pool)
    requires Closed(c, within) && within(s) && Shaped(c, s)
    requires s.manager == Idle && s.control == Outside && s.state == Running && !s.stopped
    requires ShouldExpand(c, s.active, s.threadCount, s.pending) && c.coreThreads == 1 && s.size == 2
    requires s.slots[1].pc == Exited && s.slots[1].exitFlag && s.slots[1].joinable
    ensures within(s') && Shaped(c, s') && s'.manager == Respawn(1) && |s'.slots| == |s.slots|
    ensures s'.slots[1] == s.slots[1].(joinable := false)
  {
    var s1 := ChecksLoad(c, within, s);
    var s2 := Next(c, s1, Manage(true));
    assert s2 == s.(manager := Create) && FirstFlagged(s2.slots, 1, 2) == 1;
    var s3 := Next(c, s2, Manage(true));
    assert s3 == s.(manager := JoinOld(1));
    s' := Next(c, s3, Manage(true));
  }

  /** The new thread reads the flag before it is cleared. */
  lemma ClearsLate(c: Config, within: Pool -> bool, s: Pool) returns (s': Pool)
    requires Closed(c, within) && within(s) && Shaped(c, s) && s.manager == ResetIdle(1) && 1 < |s.slots|
    requires s.slots[1].pc == Top && s.slots[1].exitFlag && s.slots[1].joinable
    ensures within(s') && s'.manager == CountThread && |s'.slots| == |s.slots|
    ensures s'.slots[1].pc == Exited && s'.slots[1].joinable && !s'.slots[1].exitFlag
  {
    var s1 := Works(c, within, s, 1);
    var s2 := ResetsIdle(c, within, s1);
    s' := ClearsFlag(c, within, s2);
  }

  lemma ResetsIdle(c: Config, within: Pool -> bool, s: Pool) returns (s': Pool)
    requires Closed(c, within) && within(s) && Shaped(c, s) && s.manager == ResetIdle(1) && 1 < |s.slots|
    ensures within(s') && Shaped(c, s') && s'.manager == ClearFlag(1)
    ensures s'.slots == s.slots[1 := s.slots[1].(idle := 0)]
  {
    s' := Next(c, s, Manage(true));
  }

  lemma ClearsFlag(c: Config, within: Pool -> bool, s: Pool) returns (s': Pool)
    requires Closed(c, within) && within(s) && Shaped(c, s) && s.manager == ClearFlag(1) && 1 < |s.slots|
    ensures within(s') && Shaped(c, s') && s'.manager == CountThread
    ensures s'.slots == s.slots[1 := s.slots[1].(exitFlag := false)]
  {
    s' := Next(c, s, Manage(true));
  }

  /** The new thread is counted, and the statistics are still to follow. */
  lemma Counts(c: Config, within: Pool -> bool, s: Pool) returns (s': Pool)
    requires Closed(c, within) && within(s) && Shaped(c, s) && s.manager == CountThread
    ensures within(s') && Shaped(c, s') && s'.manager == RecordThread && s'.threadCount == s.threadCount + 1
    ensures s'.slots == s.slots && s'.size == s.size && s'.active == s.active && s'.control == s.control
    ensures s'.state == s.state && s'.stopped == s.stopped && s'.lock == s.lock && s'.q == s.q
    ensures s'.submits == s.submits && s'.policy == s.policy && s'.pending == s.pending
    ensures s.balancer == Gone ==> s'.balancer == Gone
  {
    s' := Next(c, s, Manage(true));
  }

  lemma Records(c: Config, within: Pool -> bool, s: Pool) returns (s': Pool)
    requires Closed(c, within) && within(s) && Shaped(c, s) && s.manager == CountThread
    ensures within(s') && Shaped(c, s') && s'.manager == Idle && s'.threadCount == s.threadCount + 1
    ensures s'.slots == s.slots && s'.size == s.size && s'.active == s.active && s'.control == s.control
    ensures s'.state == s.state && s'.stopped == s.stopped && s'.lock == s.lock && s'.q == s.q
    ensures s'.submits == s.submits && s'.policy == s.policy && s'.pending == s.pending
    ensures s.balancer == Gone ==> s'.balancer == Gone
  {
    var s1 := Counts(c, within, s);
    s' := Next(c, s1, Manage(true));
  }

  lemma Retires(c: Config, within: Pool -> bool, s: Pool, i: nat) returns (s': Pool)
    requires Closed(c, within) && within(s) && Shaped(c, s) && i < |s.slots|
    requires s.manager == Retire(i) && s.lock == Free && s.slots[i].pc.Executing?
    ensures within(s') && |s'.slots| == |s.slots| && s'.slots[i] == s.slots[i].(exitFlag := true)
  {
    s' := Next(c, s, Manage(true));
  }

  // ----- stopping a pool with one worker -----

  ghost predicate SameCalls(s: Pool, s': Pool) {
    && s'.submits == s.submits && s'.policy == s.policy && s'.size == s.size && |s'.slots| == |s.slots|
    && s'.manager == s.manager && s'.balancer == s.balancer && s'.q.ring.capacity == s.q.ring.capacity
  }

  /** A submit call has read the blocking policy. */
  lemma Chooses(c: Config, within: Pool -> bool, s: Pool, t: Task) returns (s': Pool)
    requires Closed(c, within) && within(s) && Shaped(c, s) && s.state == Running && t !in s.submits
    requires s.policy == Blocking
    ensures within(s') && Shaped(c, s') && OnlyTasks(s, s') && s'.q == s.q
    ensures s'.submits == s.submits[t := Chosen(Blocking)]
  {
    var s1 := Begins(c, within, s, t);
    s' := Submits(c, within, s1, t);
    assert s'.submits == s.submits[t := Chosen(Blocking)];
  }

  lemma Controls(c: Config, within: Pool -> bool, s: Pool) returns (s': Pool)
    requires Closed(c, within) && within(s) && Shaped(c, s) && NextControlPc(s, false) != s.control
    ensures within(s') && Shaped(c, s') && s' == ControlStep(s, false)
  {
    s' := Next(c, s, Control(false));
  }

  /** shutdown(FORCE) has locked the queue. */
  lemma Forces(c: Config, within: Pool -> bool, s: Pool) returns (s': Pool)
    requires Closed(c, within) && within(s) && Shaped(c, s)
    requires s.state == Running && s.control == Outside && s.lock == Free
    ensures within(s') && Shaped(c, s') && SameCalls(s, s') && s'.slots == s.slots && s'.q == s.q
    ensures s'.state == ForceShutting && s'.control == Drain && s'.stopped == s.stopped && s'.lock == Controller
  {
    var s1 := BeginsForce(c, within, s);
    ForceStep(s1, false);
    var s2 := Controls(c, within, s1);
    ForceStep(s2, false);
    s' := Controls(c, within, s2);
  }

  lemma BeginsForce(c: Config, within: Pool -> bool, s: Pool) returns (s': Pool)
    requires Closed(c, within) && within(s) && Shaped(c, s) && s.state == Running && s.control == Outside
    ensures within(s') && Shaped(c, s') && SameCalls(s, s') && s'.slots == s.slots && s'.q == s.q
    ensures s'.state == ShuttingDown && s'.control == Forcing && s'.stopped == s.stopped && s'.lock == s.lock
  {
    s' := Next(c, s, Shutdown(Force));
  }

  /** One round of the drain. */
  lemma Drains(c: Config, within: Pool -> bool, s: Pool) returns (s': Pool)
    requires Closed(c, within) && within(s) && Shaped(c, s) && s.control == Drain && s.lock == Controller
    requires s.q.ring.items != []
    ensures within(s') && Shaped(c, s') && SameCalls(s, s') && s'.slots == s.slots
    ensures s'.state == s.state && s'.control == Drain && s'.stopped == s.stopped && s'.lock == Controller
    ensures s'.q == s.q.Dequeue()
  {
    ControlGoes(s, false);
    var s1 := Controls(c, within, s);
    DrainStep(s1, false);
    var s2 := Controls(c, within, s1);
    s' := Settles(c, within, s2);
  }

  lemma Settles(c: Config, within: Pool -> bool, s: Pool) returns (s': Pool)
    requires Closed(c, within) && within(s) && Shaped(c, s) && s.control.DrainGot? && s.lock == Controller
    ensures within(s') && Shaped(c, s') && SameCalls(s, s') && s'.slots == s.slots && s'.q == s.q
    ensures s'.state == s.state && s'.control == Drain && s'.stopped == s.stopped && s'.lock == Controller
  {
    DrainStep(s, false);
    var s1 := Controls(c, within, s);
    DrainStep(s1, false);
    var s2 := Controls(c, within, s1);
    DrainStep(s2, false);
    s' := Controls(c, within, s2);
  }

  /** The drain finds nothing more to do. */
  lemma LeavesDrain(c: Config, within: Pool -> bool, s: Pool) returns (s': Pool)
    requires Closed(c, within) && within(s) && Shaped(c, s) && s.control == Drain && s.q.ring.items == []
    ensures within(s') && Shaped(c, s') && s' == s.(control := StopBalancer, lock := Free)
  {
    ControlGoes(s, false);
    s' := Controls(c, within, s);
  }

  /** stop has set stopped_. */
  lemma Stops(c: Config, within: Pool -> bool, s: Pool) returns (s': Pool)
    requires Closed(c, within) && within(s) && Shaped(c, s) && NoneAsleep(s.slots) && s.balancer == Gone
    requires s.control == StopBalancer && s.lock == Free
    ensures within(s') && Shaped(c, s') && SameCalls(s, s') && s'.slots == s.slots && s'.q == s.q
    ensures s'.state == s.state && s'.control == JoinBalancer && s'.stopped && s'.lock == Free
  {
    StopStep(s, false);
    var s1 := Controls(c, within, s);
    StopStep(s1, false);
    s' := Controls(c, within, s1);
    assert s'.slots == s.slots;
  }

  /** A worker at the top of its loop finds stopped_ set and nothing to do. */
  lemma Exits(c: Config, within: Pool -> bool, s: Pool, i: nat) returns (s': Pool)
    requires Closed(c, within) && within(s) && Shaped(c, s) && AtTop(s, i) && s.stopped && s.q.ring.items == []
    ensures within(s') && Shaped(c, s') && SameRest(s, s', i) && s'.lock == Free
    ensures s'.slots[i].pc == Exited && s'.q.ring.items == []
  {
    var s3 := Looks(c, within, s, i);
    var s4 := Works(c, within, s3, i);
    s' := Works(c, within, s4, i);
  }

  /** stop joins the one worker and returns. */
  lemma Returns(c: Config, within: Pool -> bool, s: Pool) returns (s': Pool)
    requires Closed(c, within) && within(s) && Shaped(c, s) && |s.slots| == s.size == 1
    requires s.control == JoinBalancer && s.balancer == Gone && s.manager == Idle && s.slots[0].pc == Exited
    ensures within(s') && Shaped(c, s') && SameCalls(s, s') && s'.q == s.q && s'.control == Returned
  {
    var s1 := StartsJoining(c, within, s);
    var s2 := Joins(c, within, s1, 0);
    s' := EndsJoining(c, within, s2);
  }

  lemma StartsJoining(c: Config, within: Pool -> bool, s: Pool) returns (s': Pool)
    requires Closed(c, within) && within(s) && Shaped(c, s)
    requires s.control == JoinBalancer && s.balancer == Gone && s.manager == Idle
    ensures within(s') && Shaped(c, s') && s' == s.(control := Join(0))
  {
    ControlGoes(s, false);
    s' := Controls(c, within, s);
  }

  lemma Joins(c: Config, within: Pool -> bool, s: Pool, i: nat) returns (s': Pool)
    requires Closed(c, within) && within(s) && Shaped(c, s) && s.control == Join(i) && i < s.size
    requires s.slots[i].pc == Exited
    ensures within(s') && Shaped(c, s') && SameCalls(s, s') && s'.q == s.q && s'.control == Join(i + 1)
    ensures forall j :: 0 <= j < |s.slots| ==> s'.slots[j].pc == s.slots[j].pc
  {
    StopStep(s, false);
    s' := Controls(c, within, s);
  }

  lemma EndsJoining(c: Config, within: Pool -> bool, s: Pool) returns (s': Pool)
    requires Closed(c, within) && within(s) && Shaped(c, s) && s.control.Join? && s.control.i >= s.size
    ensures within(s') && Shaped(c, s') && SameCalls(s, s') && s'.q == s.q && s'.control == Returned
  {
    StopStep(s, false);
    var s3 := Controls(c, within, s);
    StopStep(s3, false);
    s' := Controls(c, within, s3);
  }

  // ----- reachable pools -----

  ghost predicate Reachable(c: Config, s: Pool) {
    ValidateConfigBasic(c).Accepted? && exists actions :: s == After(c, actions)
  }

  ghost function Within(c: Config): Pool -> bool {
    s => Reachable(c, s)
  }

  lemma ReachableIsClosed(c: Config)
    requires ValidateConfigBasic(c).Accepted?
    ensures Closed(c, Within(c)) && Within(c)(Initial(c))
  {
    forall s, a {:trigger Next(c, s, a)} | Shaped(c, s) && Within(c)(s) ensures Within(c)(Next(c, s, a)) {
      var actions :| s == After(c, actions);
      AfterStep(c, actions, a);
    }
    assert After(c, []) == Initial(c);
  }

  ghost predicate Later(c: Config, past: seq<Action>, s: Pool) {
    ValidateConfigBasic(c).Accepted? && exists future :: s == After(c, past + future)
  }

  ghost function From(c: Config, past: seq<Action>): Pool -> bool {
    s => Later(c, past, s)
  }

  lemma LaterIsClosed(c: Config, past: seq<Action>)
    requires ValidateConfigBasic(c).Accepted?
    ensures Closed(c, From(c, past)) && From(c, past)(After(c, past))
  {
    forall s, a {:trigger Next(c, s, a)} | Shaped(c, s) && From(c, past)(s) ensures From(c, past)(Next(c, s, a)) {
      var future :| s == After(c, past + future);
      AfterStep(c, past + future, a);
      assert past + future + [a] == past + (future + [a]);
    }
    assert past + [] == past;
  }
}
