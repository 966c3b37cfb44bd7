/** The table of workers: which slots have a thread, which are told to exit, and how the
    thread counts follow it. */
module SlotTable {
  import opened Configs
  import opened Pools
  import opened Steps
  import opened Tallies
  import Lifecycle

  /** Until stop joins the workers, every core slot has a thread and is never told to exit,
      and a slot without a thread is one that was told to exit. */
  ghost predicate SlotOk(c: Config, s: Pool, i: nat)
    requires i < |s.slots|
  {
    var w := s.slots[i];
    && (i >= s.size ==> w.pc == Absent && !w.joinable && !w.exitFlag)
    && (i < s.size ==> w.pc != Absent && (w.pc != Exited ==> w.joinable))
    && (i < c.coreThreads ==> !w.exitFlag)
    && (i < c.coreThreads && w.pc == Exited ==> s.stopped || Lifecycle.Rank(s.state) >= 2)
    && (i < s.size && !w.joinable && !BalancerJoined(s.control) ==> w.exitFlag)
    && (w.pc == Asleep ==> !w.exitFlag)
  }

  ghost predicate ManagerOk(c: Config, s: Pool) {
    match s.manager
    case JoinOld(i) => c.coreThreads <= i < s.size <= |s.slots| && s.slots[i].exitFlag && s.slots[i].joinable
    case Respawn(i) =>
      c.coreThreads <= i < s.size <= |s.slots| && s.slots[i].exitFlag && !s.slots[i].joinable
      && s.slots[i].pc == Exited
    case ResetIdle(i) => c.coreThreads <= i < s.size <= |s.slots| && s.slots[i].exitFlag && s.slots[i].joinable
    case ClearFlag(i) => c.coreThreads <= i < s.size <= |s.slots| && s.slots[i].exitFlag && s.slots[i].joinable
    case Emplace => s.size < c.maxThreads
    case Scan(i) => c.coreThreads <= i
    case TestIdle(i) => c.coreThreads <= i < s.size <= |s.slots| && !s.slots[i].exitFlag
    case Retire(i) => c.coreThreads <= i < s.size <= |s.slots| && !s.slots[i].exitFlag
    case _ => true
  }

  ghost predicate Table(c: Config, s: Pool) {
    && Shaped(c, s)
    && (forall i :: 0 <= i < |s.slots| ==> SlotOk(c, s, i))
    && ManagerOk(c, s)
    && (BalancerJoined(s.control) ==> s.manager == Idle && s.balancer == Gone)
    && (s.balancer == InLoadCheck || s.balancer == InClean ==> s.manager != Idle)
  }

  lemma WorkerTable(c: Config, s: Pool, i: nat, choice: bool)
    requires Table(c, s) && i < |s.slots|
    ensures Table(c, WorkerStep(s, i, choice))
  {
    var pc := NextWorkerPc(s, s.slots[i], choice);
    if pc != s.slots[i].pc {
      assert SlotOk(c, s, i);
      WorkerMovesTable(c, s, i, pc);
    }
  }

  lemma WorkerMovesTable(c: Config, s: Pool, i: nat, pc: WorkerPc)
    requires Table(c, s) && i < |s.slots|
    requires s.slots[i].pc != Absent && s.slots[i].pc != Exited && pc != Absent
    requires pc == Asleep ==> !s.slots[i].exitFlag
    requires pc == Exited && i < c.coreThreads ==> s.stopped || Lifecycle.Rank(s.state) >= 2
    ensures Table(c, WorkerMoves(s, i, pc))
  {
    var s' := WorkerMoves(s, i, pc);
    assert SlotOk(c, s, i);
    forall j | 0 <= j < |s'.slots| ensures SlotOk(c, s', j) {
      assert SlotOk(c, s, j);
    }
  }

  lemma SubmitTable(c: Config, s: Pool, t: Task, wake: nat)
    requires Table(c, s)
    ensures Table(c, SubmitStep(s, t, wake))
  {
    var s' := SubmitStep(s, t, wake);
    forall j | 0 <= j < |s'.slots| ensures SlotOk(c, s', j) {
      assert SlotOk(c, s, j);
    }
    if s.manager.Respawn? {
      assert s.slots[s.manager.i].pc == Exited;
    }
  }

  lemma ManagerTable(c: Config, s: Pool, choice: bool)
    requires Table(c, s)
    ensures Table(c, ManagerStep(c, s, choice))
  {
    var pc := NextManagerPc(c, s, choice);
    if pc != s.manager {
      forall j | 0 <= j < |s.slots| ensures SlotOk(c, ManagerMoves(s, pc, choice), j) {
        ManagerMovesSlot(c, s, choice, j);
      }
      ManagerMovesOk(c, s, choice);
    }
  }

  lemma ManagerMovesSlot(c: Config, s: Pool, choice: bool, j: nat)
    requires Table(c, s) && j < |s.slots|
    requires NextManagerPc(c, s, choice) != s.manager
    ensures SlotOk(c, ManagerMoves(s, NextManagerPc(c, s, choice), choice), j)
  {
    assert SlotOk(c, s, j);
  }

  /** To a worker the manager only ever does two things: start it in a slot whose last
      thread is gone, and wake it. */
  ghost predicate SameWork(w: Slot, w': Slot) {
    || w'.pc == w.pc
    || ((w.pc == Exited || w.pc == Absent) && w'.pc == Top)
    || (w.pc == Asleep && w'.pc == WantLock)
  }

  lemma ManagerSameWork(c: Config, s: Pool, choice: bool, j: nat)
    requires Table(c, s) && j < |s.slots|
    ensures SameWork(s.slots[j], ManagedSlots(s, NextManagerPc(c, s, choice), choice)[j])
  {
    assert SlotOk(c, s, j);
  }

  lemma ManagerMovesOk(c: Config, s: Pool, choice: bool)
    requires Table(c, s)
    requires NextManagerPc(c, s, choice) != s.manager
    ensures ManagerOk(c, ManagerMoves(s, NextManagerPc(c, s, choice), choice))
  {
    var k := Target(s);
    if k < |s.slots| {
      assert SlotOk(c, s, k);
    } else if s.manager.Create? {
      var i := FirstFlagged(s.slots, c.coreThreads, s.size);
      if i < s.size {
        assert SlotOk(c, s, i);
      }
    }
  }

  lemma ControlTable(c: Config, s: Pool, choice: bool)
    requires Table(c, s) && Lifecycle.Placed(s)
    ensures Table(c, ControlStep(s, choice))
  {
    var s' := ControlStep(s, choice);
    forall j | 0 <= j < |s'.slots| ensures SlotOk(c, s', j) {
      ControlSlot(c, s, choice, j);
    }
  }

  lemma ControlSlot(c: Config, s: Pool, choice: bool, j: nat)
    requires Shaped(c, s) && Lifecycle.Placed(s) && j < |s.slots| && SlotOk(c, s, j)
    ensures SlotOk(c, ControlStep(s, choice), j)
  {
  }

  lemma OtherTable(c: Config, s: Pool, s': Pool)
    requires Table(c, s)
    requires s'.slots == s.slots && s'.size == s.size && s'.q == s.q
    requires s'.manager == s.manager || (s'.manager.ReadActive? || s'.manager == Clean(0))
    requires s'.stopped == s.stopped && Lifecycle.Rank(s.state) <= Lifecycle.Rank(s'.state)
    requires BalancerJoined(s'.control) <==> BalancerJoined(s.control)
    requires BalancerJoined(s.control) ==> s'.manager == s.manager && s'.balancer == s.balancer
    requires s'.balancer == InLoadCheck || s'.balancer == InClean ==> s'.manager != Idle
    ensures Table(c, s')
  {
    forall j | 0 <= j < |s'.slots| ensures SlotOk(c, s', j) {
      assert SlotOk(c, s, j);
    }
  }

  // ----- the counts -----

  /** A thread has been started and thread_count_ does not say so yet. */
  predicate Uncounted(pc: ManagerPc) {
    pc.ResetIdle? || pc.ClearFlag? || pc.CountThread?
  }

  /** thread_count_ is the number of thread objects, but for the moment between starting a
      thread and counting it, and until stop joins threads without counting them off. */
  ghost predicate ThreadsCounted(c: Config, s: Pool) {
    && c.coreThreads <= s.threadCount
    && Tally(s.slots, HasThread) <= s.threadCount + One(Uncounted(s.manager))
    && (!BalancerJoined(s.control) ==> s.threadCount + One(Uncounted(s.manager)) == Tally(s.slots, HasThread))
    && (s.manager.Create? || s.manager.Emplace? || s.manager.Respawn? ==> s.threadCount < c.maxThreads)
    && s.created + One(s.manager.RecordThread?) - s.destroyed == s.threadCount
    && s.threadCount <= s.past.maxThreads <= c.maxThreads
    && (!s.manager.RecordThread? ==> s.peak == s.past.maxThreads)
    && s.past.maxThreads == Larger(s.peak, if s.manager.RecordThread? then s.threadCount else s.peak)
  }

  lemma WorkerCounted(c: Config, s: Pool, i: nat, choice: bool)
    requires Table(c, s) && ThreadsCounted(c, s) && i < |s.slots|
    ensures ThreadsCounted(c, WorkerStep(s, i, choice))
  {
    TallyUpdate(s.slots, i, WorkerStep(s, i, choice).slots[i]);
  }

  lemma SubmitCounted(c: Config, s: Pool, t: Task, wake: nat)
    requires Table(c, s) && ThreadsCounted(c, s)
    ensures ThreadsCounted(c, SubmitStep(s, t, wake))
  {
    TallySame(s.slots, SubmitStep(s, t, wake).slots, HasThread, HasThread);
  }

  /** What the manager does to one slot is all that a count can notice. */
  lemma TallyManaged(s: Pool, pc: ManagerPc, choice: bool, k: Kind)
    requires k != Willing && Target(s) < |s.slots|
    ensures
      var w := s.slots[Target(s)];
      Tally(ManagedSlots(s, pc, choice), k)
      == Tally(s.slots, k) - One(Hit(k, w)) + One(Hit(k, ManagedSlot(s, w, pc, choice)))
  {
    var i := Target(s);
    var touched := s.slots[i := ManagedSlot(s, s.slots[i], pc, choice)];
    TallyUpdate(s.slots, i, touched[i]);
    TallyWakeAll(touched, WakeAll(touched), k);
  }

  /** Thread objects appear when a thread starts and disappear when it is joined. */
  lemma ThreadsManaged(c: Config, s: Pool, choice: bool)
    requires Table(c, s) && NextManagerPc(c, s, choice) != s.manager
    ensures
      var pc := NextManagerPc(c, s, choice);
      Tally(ManagedSlots(s, pc, choice), HasThread)
      == Tally(s.slots, HasThread) + One(StartsThread(s.manager, pc)) - One(JoinsThread(s))
  {
    var pc := NextManagerPc(c, s, choice);
    var i := Target(s);
    if i < |s.slots| {
      TallyManaged(s, pc, choice, HasThread);
      assert SlotOk(c, s, i);
    } else {
      assert ManagedSlots(s, pc, choice) == s.slots;
    }
  }

  lemma ManagerCounted(c: Config, s: Pool, choice: bool)
    requires Table(c, s) && ThreadsCounted(c, s)
    ensures ThreadsCounted(c, ManagerStep(c, s, choice))
  {
    var pc := NextManagerPc(c, s, choice);
    if pc != s.manager {
      ThreadsManaged(c, s, choice);
      ManagerTable(c, s, choice);
      CoreThreadsCount(c, ManagerMoves(s, pc, choice));
      ManagerMovesCounted(c, s, ManagerMoves(s, pc, choice), choice);
    }
  }

  /** The core slots alone make up that many threads. */
  lemma CoreThreadsCount(c: Config, s: Pool)
    requires Table(c, s)
    ensures !BalancerJoined(s.control) ==> c.coreThreads <= Tally(s.slots, HasThread)
  {
    if !BalancerJoined(s.control) {
      forall i | 0 <= i < c.coreThreads ensures Hit(HasThread, s.slots[i]) {
        assert SlotOk(c, s, i);
      }
      TallyPrefix(s.slots, HasThread, c.coreThreads);
    }
  }

  lemma ManagerMovesCounted(c: Config, s: Pool, s': Pool, choice: bool)
    requires Shaped(c, s) && ThreadsCounted(c, s) && |s'.slots| == c.maxThreads
    requires BalancerJoined(s.control) ==> s.manager == Idle
    requires
      var pc := NextManagerPc(c, s, choice);
      pc != s.manager && s' == ManagerMoves(s, pc, choice)
      && Tally(s'.slots, HasThread)
         == Tally(s.slots, HasThread) + One(StartsThread(s.manager, pc)) - One(JoinsThread(s))
    requires !BalancerJoined(s'.control) ==> c.coreThreads <= Tally(s'.slots, HasThread)
    ensures ThreadsCounted(c, s')
  {
  }

  lemma ControlCounted(c: Config, s: Pool, choice: bool)
    requires Table(c, s) && ThreadsCounted(c, s)
    ensures ThreadsCounted(c, ControlStep(s, choice))
  {
    var s' := ControlStep(s, choice);
    if !BalancerJoined(s.control) {
      TallyWakeAll(s.slots, s'.slots, HasThread);
    } else {
      TallyWithin(s'.slots, s.slots, HasThread, HasThread);
    }
    ControlSameCounts(c, s, choice);
    SameCounted(c, s, s');
  }

  lemma ControlSameCounts(c: Config, s: Pool, choice: bool)
    requires Table(c, s)
    ensures
      var s' := ControlStep(s, choice);
      && s'.threadCount == s.threadCount && s'.manager == s.manager && s'.created == s.created
      && s'.destroyed == s.destroyed && s'.peak == s.peak && s'.past.maxThreads == s.past.maxThreads
      && (BalancerJoined(s.control) ==> BalancerJoined(s'.control))
  {
  }

  lemma SameCounted(c: Config, s: Pool, s': Pool)
    requires ThreadsCounted(c, s) && Tally(s'.slots, HasThread) <= Tally(s.slots, HasThread)
    requires !BalancerJoined(s'.control) ==> Tally(s'.slots, HasThread) == Tally(s.slots, HasThread)
    requires BalancerJoined(s.control) ==> BalancerJoined(s'.control)
    requires s'.threadCount == s.threadCount && s'.manager == s.manager && s'.created == s.created
    requires s'.destroyed == s.destroyed && s'.peak == s.peak && s'.past.maxThreads == s.past.maxThreads
    ensures ThreadsCounted(c, s')
  {
  }

  lemma OtherCounted(c: Config, s: Pool, s': Pool)
    requires ThreadsCounted(c, s) && s'.slots == s.slots && s'.threadCount == s.threadCount
    requires s'.created == s.created && s'.destroyed == s.destroyed && s'.peak == s.peak
    requires s'.past.maxThreads == s.past.maxThreads
    requires s'.manager == s.manager || (s.manager == Idle && (s'.manager == ReadActive || s'.manager == Clean(0)))
    requires BalancerJoined(s'.control) <==> BalancerJoined(s.control)
    ensures ThreadsCounted(c, s')
  {
  }
}
