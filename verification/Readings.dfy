/** What loadCheck and getStatus see when they read counters that other threads are changing. */
module Readings {
  import opened Configs
  import opened Pools
  import opened Steps
  import opened Tallies
  import opened SlotTable
  import Locking
  import opened Accounting
  import opened Runs

  // ----- pending_tasks_ -----

  /** Tasks that have left the queue and are not subtracted yet: in the hand of a worker or of
      the drain, or overwritten. */
  function Unsubtracted(s: Pool): nat {
    Tally(s.slots, Owing) + s.q.ring.overrun + One(s.control.DrainGot? || s.control.DrainUncount?)
  }

  /** The counter is below zero exactly while more submit calls have pushed without counting
      than there are tasks left to subtract. */
  lemma PendingBelowZeroIff(c: Config, actions: seq<Action>)
    requires ValidateConfigBasic(c).Accepted?
    ensures
      var s := After(c, actions);
      s.pending < 0 <==> |Uncounting(s.submits)| > |s.q.ring.items| + Unsubtracted(s)
  {
    AfterInv(c, actions);
    assert Accounted(After(c, actions));
  }

  /** The unsigned reading is the true number exactly outside that case, so always while no
      submit call is in flight. */
  lemma ReadingExactIff(c: Config, actions: seq<Action>)
    requires ValidateConfigBasic(c).Accepted?
    ensures
      var s := After(c, actions);
      -WORD <= s.pending < WORD ==>
        && (Unsigned(s.pending) == s.pending
            <==> |Uncounting(s.submits)| <= |s.q.ring.items| + Unsubtracted(s))
        && (Quiet(s) ==> Unsigned(s.pending) == s.pending)
  {
    PendingBelowZeroIff(c, actions);
    if Quiet(After(c, actions)) {
      QuietCounts(After(c, actions));
    }
  }

  /** What the counter reads as when nothing is queued. */
  function EmptyReading(s: Pool): int {
    var late := |Uncounting(s.submits)|;
    if late <= Unsubtracted(s) then Unsubtracted(s) - late else WORD - (late - Unsubtracted(s))
  }

  /** With an empty queue loadCheck asks for another thread exactly when the load factor, or
      that reading, asks for it. On an idle pool without calls in flight the reading is the
      number of overwritten tasks. */
  lemma EmptyQueueExpandsIff(c: Config, actions: seq<Action>, choice: bool)
    requires ValidateConfigBasic(c).Accepted?
    ensures
      var s := After(c, actions);
      s.manager.ReadPending? && s.q.ring.items == [] && -WORD <= s.pending < WORD ==>
        && (NextManagerPc(c, s, choice) == Create
            <==> && s.threadCount < c.maxThreads
                 && ( || LoadFactor(s.manager.active, s.threadCount) >= c.expandFactor
                      || EmptyReading(s) >= c.taskLimit
                      || (s.threadCount > 0 && EmptyReading(s) as real / s.threadCount as real > c.avgTaskThreshold)))
        && (Quiet(s) && s.lock == Free && s.running == 0 ==> EmptyReading(s) == s.q.ring.overrun)
  {
    AfterInv(c, actions);
    var s := After(c, actions);
    if s.q.ring.items == [] && -WORD <= s.pending < WORD {
      assert Accounted(s) && Unsigned(s.pending) == EmptyReading(s);
      if Quiet(s) && s.lock == Free && s.running == 0 {
        QuietCounts(s);
        OwingRuns(s);
      }
    }
  }

  lemma OwingRuns(s: Pool)
    requires Locking.Locked(s) && s.lock == Free
    ensures Tally(s.slots, Owing) == Tally(s.slots, CountedRunning)
    ensures !s.control.DrainGot? && !s.control.DrainUncount?
  {
    forall i | 0 <= i < |s.slots| ensures Hit(Owing, s.slots[i]) == Hit(CountedRunning, s.slots[i]) {
      assert Locking.LockOk(s, i);
    }
    TallySame(s.slots, s.slots, Owing, CountedRunning);
  }

  // ----- the load factor of getStatus -----

  lemma ActiveHasThread(c: Config, s: Pool)
    requires Table(c, s)
    ensures Tally(s.slots, CountedActive) <= Tally(s.slots, HasThread)
  {
    forall i | 0 <= i < |s.slots| && Hit(CountedActive, s.slots[i]) ensures Hit(HasThread, s.slots[i]) {
      assert SlotOk(c, s, i);
    }
    TallyWithin(s.slots, s.slots, CountedActive, HasThread);
  }

  /** At any one instant the active threads outnumber the counted ones exactly while a thread
      has been started and not counted and every thread there is is active. */
  lemma InstantAboveIff(c: Config, actions: seq<Action>)
    requires ValidateConfigBasic(c).Accepted?
    ensures
      var s := After(c, actions);
      s.active > s.threadCount <==> Uncounted(s.manager) && s.active == Tally(s.slots, HasThread)
  {
    AfterInv(c, actions);
    var s := After(c, actions);
    ActiveHasThread(c, s);
    assert Accounted(s) && ThreadsCounted(c, s);
  }

  predicate Starts(c: Config, s: Pool, a: Action)
    requires Shaped(c, s)
  {
    a.Manage? && StartsThread(s.manager, NextManagerPc(c, s, a.choice))
  }

  predicate Joins(c: Config, s: Pool, a: Action)
    requires Shaped(c, s)
  {
    || (a.Manage? && NextManagerPc(c, s, a.choice) != s.manager && JoinsThread(s))
    || (a.Control? && StopJoins(s))
  }

  /** stop joins the next worker. */
  predicate StopJoins(s: Pool) {
    && s.control.Join? && s.control.i < s.size && s.control.i < |s.slots|
    && s.slots[s.control.i].joinable && s.slots[s.control.i].pc == Exited
  }

  /** Threads started less threads joined during `future`. */
  ghost function NetStarted(c: Config, past: seq<Action>, future: seq<Action>): int
    requires ValidateConfigBasic(c).Accepted?
    decreases |future|
  {
    if future == [] then 0
    else
      var k := |future| - 1;
      var s := After(c, past + future[..k]);
      NetStarted(c, past, future[..k]) + One(Starts(c, s, future[k])) - One(Joins(c, s, future[k]))
  }

  lemma ManageThreads(c: Config, s: Pool, choice: bool)
    requires Table(c, s)
    ensures Tally(ManagerStep(c, s, choice).slots, HasThread)
            == Tally(s.slots, HasThread) + One(Starts(c, s, Manage(choice))) - One(Joins(c, s, Manage(choice)))
  {
    if NextManagerPc(c, s, choice) != s.manager {
      ThreadsManaged(c, s, choice);
    }
  }

  lemma ControlThreads(c: Config, s: Pool, choice: bool)
    requires Shaped(c, s)
    ensures Tally(ControlStep(s, choice).slots, HasThread) == Tally(s.slots, HasThread) - One(StopJoins(s))
  {
    var s' := ControlStep(s, choice);
    if s.control.Join? && s.control.i < s.size && s' != s {
      TallyUpdate(s.slots, s.control.i, s'.slots[s.control.i]);
      assert s'.slots == s.slots[s.control.i := s'.slots[s.control.i]];
    } else {
      TallyWakeAll(s.slots, s'.slots, HasThread);
    }
  }

  lemma WorkThreads(s: Pool, i: nat, choice: bool)
    requires s.q.Valid() && i < |s.slots|
    ensures Tally(WorkerStep(s, i, choice).slots, HasThread) == Tally(s.slots, HasThread)
  {
    TallySame(s.slots, WorkerStep(s, i, choice).slots, HasThread, HasThread);
  }

  lemma SubmitThreads(s: Pool, t: Task, wake: nat)
    requires s.q.Valid()
    ensures Tally(SubmitStep(s, t, wake).slots, HasThread) == Tally(s.slots, HasThread)
  {
    TallySame(s.slots, SubmitStep(s, t, wake).slots, HasThread, HasThread);
  }

  lemma OthersThreads(c: Config, s: Pool, a: Action)
    requires Shaped(c, s) && (Aside(a) || a.BeginSubmit?)
    ensures Next(c, s, a).slots == s.slots
  {
  }

  lemma JoinedStays(c: Config, s: Pool, a: Action)
    requires Shaped(c, s) && BalancerJoined(s.control)
    ensures BalancerJoined(Next(c, s, a).control)
  {
  }

  /** Only the manager starts threads, and only it and stop join them. */
  lemma StepThreads(c: Config, s: Pool, a: Action)
    requires Table(c, s)
    ensures Tally(Next(c, s, a).slots, HasThread)
            == Tally(s.slots, HasThread) + One(Starts(c, s, a)) - One(Joins(c, s, a))
  {
    match a
    case Work(i, choice) => if i < |s.slots| { WorkThreads(s, i, choice); }
    case ContinueSubmit(t, wake) => SubmitThreads(s, t, wake);
    case Manage(choice) => ManageThreads(c, s, choice);
    case Control(choice) => ControlThreads(c, s, choice);
    case _ => OthersThreads(c, s, a);
  }

  lemma LastThreads(c: Config, past: seq<Action>, future: seq<Action>, k: nat)
    requires ValidateConfigBasic(c).Accepted? && k + 1 == |future|
    ensures
      var s := After(c, past + future[..k]);
      Tally(After(c, past + future).slots, HasThread)
      == Tally(s.slots, HasThread) + One(Starts(c, s, future[k])) - One(Joins(c, s, future[k]))
  {
    AfterInv(c, past + future[..k]);
    assert (past + future[..k]) + [future[k]] == past + future;
    AfterStep(c, past + future[..k], future[k]);
    StepThreads(c, After(c, past + future[..k]), future[k]);
  }

  lemma {:induction false} ThreadsAddUp(c: Config, past: seq<Action>, future: seq<Action>)
    requires ValidateConfigBasic(c).Accepted?
    ensures Tally(After(c, past + future).slots, HasThread)
            == Tally(After(c, past).slots, HasThread) + NetStarted(c, past, future)
    decreases |future|
  {
    if future == [] {
      assert past + future == past;
    } else {
      var k := |future| - 1;
      LastThreads(c, past, future, k);
      ThreadsAddUp(c, past, future[..k]);
    }
  }

  lemma LastJoined(c: Config, past: seq<Action>, future: seq<Action>, k: nat)
    requires ValidateConfigBasic(c).Accepted? && k + 1 == |future|
    requires BalancerJoined(After(c, past + future[..k]).control)
    ensures BalancerJoined(After(c, past + future).control)
    ensures !Starts(c, After(c, past + future[..k]), future[k])
  {
    AfterInv(c, past + future[..k]);
    assert (past + future[..k]) + [future[k]] == past + future;
    AfterStep(c, past + future[..k], future[k]);
    JoinedStays(c, After(c, past + future[..k]), future[k]);
  }

  /** Once stop joins the workers no thread is started. */
  lemma {:induction false} NobodyStarts(c: Config, past: seq<Action>, future: seq<Action>)
    requires ValidateConfigBasic(c).Accepted? && BalancerJoined(After(c, past).control)
    ensures BalancerJoined(After(c, past + future).control) && NetStarted(c, past, future) <= 0
    decreases |future|
  {
    if future == [] {
      assert past + future == past;
    } else {
      var k := |future| - 1;
      NobodyStarts(c, past, future[..k]);
      LastJoined(c, past, future, k);
    }
  }

  /** calLoadFactor called by getStatus, which holds no lock that keeps the threads as they are:
      thread_count_ is loaded first, after `past`, and active_threads_ after `future`. */
  ghost function StatusFactor(c: Config, past: seq<Action>, future: seq<Action>): real
    requires ValidateConfigBasic(c).Accepted?
  {
    LoadFactor(After(c, past + future).active, After(c, past).threadCount)
  }

  /** The reported factor is above one exactly when fewer threads are idle at the second load
      than were started, and not joined, since the first, counting one that had been started
      and not counted when the first was made; and never once stop joins the workers by the
      first load. */
  lemma StatusAboveOneIff(c: Config, past: seq<Action>, future: seq<Action>)
    requires ValidateConfigBasic(c).Accepted?
    ensures
      var s, s' := After(c, past), After(c, past + future);
      && (StatusFactor(c, past, future) > 1.0
          <==> !BalancerJoined(s.control)
               && Tally(s'.slots, HasThread) - s'.active < NetStarted(c, past, future) + One(Uncounted(s.manager)))
      && 0.0 <= StatusFactor(c, past, future)
  {
    AfterInv(c, past);
    AfterInv(c, past + future);
    var s, s' := After(c, past), After(c, past + future);
    ThreadsAddUp(c, past, future);
    assert ThreadsCounted(c, s) && Accounted(s');
    AboveOne(s'.active, s.threadCount);
    if BalancerJoined(s.control) {
      NobodyStarts(c, past, future);
      ActiveHasThread(c, s');
    }
  }

  lemma AboveOne(active: int, threads: int)
    requires 0 <= active && 0 < threads
    ensures LoadFactor(active, threads) > 1.0 <==> active > threads
    ensures 0.0 <= LoadFactor(active, threads)
  {
    Quotient(active as real, threads as real);
  }

  lemma Quotient(m: real, n: real)
    requires 0.0 <= m && 0.0 < n
    ensures 0.0 <= m / n && (m / n > 1.0 <==> m > n)
  {
    var q := m / n;
    assert q * n == m;
    if q > 1.0 {
      assert (q - 1.0) * n > 0.0;
    } else {
      assert (1.0 - q) * n >= 0.0;
    }
  }
}
