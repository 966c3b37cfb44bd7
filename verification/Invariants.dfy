/** The invariant of the whole pool, kept by every step of every thread. */
module Invariants {
  import opened Configs
  import opened Pools
  import opened Steps
  import opened Lifecycle
  import opened SlotTable
  import opened Locking
  import opened Accounting
  import opened Waking
  import opened Limits
  import opened Shutdowns

  ghost predicate Inv(c: Config, s: Pool) {
    && Usable(c)
    && Table(c, s)
    && Placed(s)
    && Locked(s)
    && ThreadsCounted(c, s)
    && Accounted(s)
    && Owned(s)
    && Distinct(s)
    && Awake(s)
    && Limited(s)
    && Settling(s)
  }

  lemma WorkInv(c: Config, s: Pool, i: nat, choice: bool)
    requires Inv(c, s) && i < |s.slots|
    ensures Inv(c, WorkerStep(s, i, choice))
  {
    WorkerTable(c, s, i, choice);
    WorkerPlaced(s, i, choice);
    WorkerLocked(c, s, i, choice);
    WorkerCounted(c, s, i, choice);
    WorkerAccounted(c, s, i, choice);
    WorkerOwned(c, s, i, choice);
    WorkerDistinct(s, i, choice);
    WorkerAwake(c, s, i, choice);
    WorkerLimited(c, s, i, choice);
    WorkerSettling(c, s, i, choice);
  }

  lemma SubmitInv(c: Config, s: Pool, t: Task, wake: nat)
    requires Inv(c, s)
    ensures Inv(c, SubmitStep(s, t, wake))
  {
    SubmitTable(c, s, t, wake);
    SubmitPlaced(s, t, wake);
    SubmitLocked(c, s, t, wake);
    SubmitCounted(c, s, t, wake);
    SubmitAccounted(c, s, t, wake);
    SubmitOwned(c, s, t, wake);
    SubmitDistinct(c, s, t, wake);
    SubmitAwake(c, s, t, wake);
    SubmitLimited(c, s, t, wake);
    SubmitSettling(c, s, t, wake);
  }

  lemma ManageInv(c: Config, s: Pool, choice: bool)
    requires Inv(c, s)
    ensures Inv(c, ManagerStep(c, s, choice))
  {
    ManagerTable(c, s, choice);
    ManagerPlaced(c, s, choice);
    ManagerLocked(c, s, choice);
    ManagerCounted(c, s, choice);
    ManagerAccounted(c, s, choice);
    ManagerOwned(c, s, choice);
    ManagerDistinct(c, s, choice);
    ManagerAwake(c, s, choice);
    ManagerLimited(c, s, choice);
    ManagerSettling(c, s, choice);
  }

  lemma ControlInv(c: Config, s: Pool, choice: bool)
    requires Inv(c, s)
    ensures Inv(c, ControlStep(s, choice))
  {
    ControlTable(c, s, choice);
    ControlPlaced(c, s, choice);
    ControlLocked(c, s, choice);
    ControlCounted(c, s, choice);
    ControlAccounted(c, s, choice);
    ControlOwned(c, s, choice);
    ControlDistinct(c, s, choice);
    ControlAwake(c, s, choice);
    ControlLimited(c, s, choice);
    ControlSettling(c, s, choice);
  }

  lemma BeginInv(c: Config, s: Pool, t: Task)
    requires Inv(c, s)
    ensures Inv(c, SubmitBegins(s, t))
  {
    if s.state == Running && t !in s.submits {
      NewSubmitInv(c, s, SubmitBegins(s, t), t);
    }
  }

  lemma NewSubmitInv(c: Config, s: Pool, s': Pool, t: Task)
    requires Inv(c, s) && s.state == Running && t !in s.submits
    requires s' == s.(submits := s.submits[t := Checked])
    ensures Inv(c, s')
  {
    OtherTable(c, s, s');
    OtherLocked(s, s');
    OtherCounted(c, s, s');
    assert Uncounting(s'.submits) == Uncounting(s.submits);
    OtherAccounted(s, s');
    SameOwned(s, s');
    OtherDistinct(s, s');
    assert Unannounced(s'.submits) == Unannounced(s.submits);
    OtherAwake(s, s');
    OtherLimited(s, s');
  }

  /** Steps that leave workers, tasks and counters alone. */
  ghost predicate Elsewhere(s: Pool, s': Pool) {
    && s'.slots == s.slots && s'.size == s.size && s'.q == s.q && s'.submits == s.submits
    && s'.stopped == s.stopped && s'.lock == s.lock
    && s'.pending == s.pending && s'.running == s.running && s'.active == s.active
    && s'.threadCount == s.threadCount && s'.created == s.created && s'.destroyed == s.destroyed
    && s'.peak == s.peak && s'.succeeded == s.succeeded && s'.failed == s.failed
    && s'.past.executed == s.past.executed && s'.past.abandoned == s.past.abandoned
    && s'.past.failures == s.past.failures
    && s'.past.maxThreads == s.past.maxThreads && s'.past.lateStarts == s.past.lateStarts
    && (s'.manager == s.manager
        || (s.manager == Idle && (s'.manager == ReadActive || s'.manager == Clean(0)) && !BalancerJoined(s.control)))
    && (s'.control == s.control || (s.control == Outside && Entering(s'.control)))
    && (BalancerJoined(s.control) ==> s'.balancer == s.balancer)
    && (s'.balancer == InLoadCheck || s'.balancer == InClean ==> s'.manager != Idle)
    && (s'.state == ForceShutting <==> s.state == ForceShutting)
    && Rank(s.state) <= Rank(s'.state)
  }

  predicate Entering(pc: ControlPc) {
    pc == WantWait || pc == Forcing || pc == PollRunning || pc == StopBalancer
  }

  lemma OtherElsewhere(c: Config, s: Pool, a: Action)
    requires Table(c, s)
    requires Aside(a)
    ensures Elsewhere(s, Next(c, s, a))
  {
    match a
    case Balance(wakes) => BalancerElsewhere(c, s, wakes);
    case Shutdown(option) => ShutdownElsewhere(c, s, option);
    case EnterCheck => CheckElsewhere(c, s);
    case _ => CallElsewhere(c, s, a);
  }

  lemma CheckElsewhere(c: Config, s: Pool)
    requires Table(c, s)
    ensures Elsewhere(s, EnterLoadCheck(s))
  {
  }

  lemma CallElsewhere(c: Config, s: Pool, a: Action)
    requires Table(c, s)
    requires a.PausePool? || a.ResumePool? || a.StopPool? || a.SetPolicy? || a.CheckLoad?
    ensures Elsewhere(s, Next(c, s, a))
  {
  }

  lemma ShutdownElsewhere(c: Config, s: Pool, option: ShutdownOption)
    requires Table(c, s)
    ensures Elsewhere(s, ShutdownBegins(s, option))
  {
  }

  lemma BalancerElsewhere(c: Config, s: Pool, wakes: bool)
    requires Table(c, s)
    ensures Elsewhere(s, BalancerStep(s, wakes))
  {
    var s' := BalancerStep(s, wakes);
    assert s' == s.(balancer := s'.balancer, manager := s'.manager);
  }

  lemma ElsewhereThreads(c: Config, s: Pool, s': Pool)
    requires Table(c, s) && Locked(s) && ThreadsCounted(c, s) && Limited(s) && Elsewhere(s, s')
    ensures Table(c, s') && Locked(s') && ThreadsCounted(c, s') && Limited(s')
  {
    OtherTable(c, s, s');
    OtherLocked(s, s');
    OtherCounted(c, s, s');
    OtherLimited(s, s');
  }

  lemma ElsewhereTasks(s: Pool, s': Pool)
    requires Accounted(s) && Owned(s) && Distinct(s) && Awake(s) && Elsewhere(s, s')
    ensures Accounted(s') && Owned(s') && Distinct(s') && Awake(s')
  {
    OtherAccounted(s, s');
    SameOwned(s, s');
    OtherDistinct(s, s');
    OtherAwake(s, s');
  }

  lemma ElsewhereInv(c: Config, s: Pool, s': Pool)
    requires Inv(c, s) && Elsewhere(s, s') && Placed(s') && Settling(s')
    ensures Inv(c, s')
  {
    ElsewhereThreads(c, s, s');
    ElsewhereTasks(s, s');
  }

  lemma OtherInv(c: Config, s: Pool, a: Action, s': Pool)
    requires Inv(c, s) && s' == Next(c, s, a)
    requires Aside(a)
    ensures Inv(c, s')
  {
    OtherPlaced(c, s, a);
    OtherSettling(c, s, a);
    OtherElsewhere(c, s, a);
    ElsewhereInv(c, s, s');
  }

  lemma NextInv(c: Config, s: Pool, a: Action)
    requires Inv(c, s)
    ensures Inv(c, Next(c, s, a))
  {
    match a
    case Work(i, choice) => if i < |s.slots| { WorkInv(c, s, i, choice); }
    case BeginSubmit(t) => BeginInv(c, s, t);
    case ContinueSubmit(t, wake) => SubmitInv(c, s, t, wake);
    case Manage(choice) => ManageInv(c, s, choice);
    case Control(choice) => ControlInv(c, s, choice);
    case _ => OtherInv(c, s, a, Next(c, s, a));
  }
}
