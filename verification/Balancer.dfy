/** The rounds of the balancer thread, and what a finished scan or cleaning pass leaves. */
module Balancers {
  import opened Configs
  import opened Pools
  import opened Steps
  import Lifecycle
  import SlotTable
  import opened Runs
  import LockOrder

  // ----- which pools have a balancer, and when it ends -----

  /** The balancer is there from the start, until it is told to exit or the pool shuts down. */
  predicate BalancerOk(c: Config, s: Pool) {
    if c.enableDynamicThread then s.balancer == Gone ==> s.balancerExit || Lifecycle.Rank(s.state) >= 1
    else s.balancer == Gone
  }

  predicate BalancerAlone(s: Pool, s': Pool) {
    && (s'.balancer == Gone <==> s.balancer == Gone)
    && (s.balancerExit ==> s'.balancerExit)
    && Lifecycle.Rank(s.state) <= Lifecycle.Rank(s'.state)
  }

  lemma OthersLeaveBalancer(c: Config, s: Pool, a: Action)
    requires Shaped(c, s) && !a.Balance?
    ensures BalancerAlone(s, Next(c, s, a))
  {
    Lifecycle.RankNeverDrops(c, s, a);
    match a
    case Work(i, choice) =>
    case Manage(choice) =>
    case Control(choice) =>
    case _ =>
  }

  lemma BalancerEnds(c: Config, s: Pool, wakes: bool)
    requires BalancerOk(c, s)
    ensures BalancerOk(c, BalancerStep(s, wakes))
  {
  }

  lemma {:induction false} AfterBalancerOk(c: Config, actions: seq<Action>)
    requires ValidateConfigBasic(c).Accepted?
    ensures BalancerOk(c, After(c, actions))
    decreases |actions|
  {
    if actions != [] {
      var n := |actions| - 1;
      AfterBalancerOk(c, actions[..n]);
      AfterLast(c, actions);
      if actions[n].Balance? {
        BalancerEnds(c, After(c, actions[..n]), actions[n].wakes);
      } else {
        OthersLeaveBalancer(c, After(c, actions[..n]), actions[n]);
      }
    }
  }

  /** In every run, while a pool with dynamic threads is running and nobody stops it, its balancer is
      there, does not sleep, and can move unless it waits for whoever is inside loadCheck. */
  lemma RunningBalancer(c: Config, actions: seq<Action>)
    requires ValidateConfigBasic(c).Accepted?
    ensures
      var s := After(c, actions);
      && (s.balancer == AsleepPaused ==> s.state != Running)
      && (!c.enableDynamicThread ==> s.balancer == Gone)
      && (c.enableDynamicThread && s.state == Running && !s.balancerExit ==>
            && s.balancer != Gone && s.balancer != AsleepPaused
            && ( || BalancerStep(s, false) != s
                 || LockOrder.WaitsFor(s, LockOrder.BalancerThread, LockOrder.ManagerThread)))
  {
    var s := After(c, actions);
    AfterBalancerOk(c, actions);
    AfterInv(c, actions);
    if s.balancer != Gone && s.balancer != AsleepPaused && BalancerStep(s, false) == s {
      LockOrder.BalancerBlocked(c, s);
    }
  }

  // ----- a round -----

  lemma OthersMoveBalancer(c: Config, s: Pool, a: Action)
    requires Shaped(c, s) && !a.Balance?
    ensures
      var b, b' := s.balancer, Next(c, s, a).balancer;
      || b' == b || (b == AsleepPaused && b' == AwaitResume)
      || (a.Manage? && Next(c, s, a).manager == Idle
          && ((b == InLoadCheck && b' == WantClean) || (b == InClean && b' == Looping)))
  {
    match a
    case Work(i, choice) =>
    case Manage(choice) =>
    case Control(choice) =>
    case _ =>
  }

  /** A round begins only in the running state, and checks the load exactly if the state is running
      when it comes to that. */
  lemma RoundSteps(c: Config, actions: seq<Action>, a: Action)
    requires ValidateConfigBasic(c).Accepted?
    ensures
      var s, s' := After(c, actions), After(c, actions + [a]);
      && (s'.balancer == Napping && s.balancer != Napping ==> s.state == Running)
      && (s.balancer == LoadCheck && s'.balancer != LoadCheck ==>
            s'.balancer == if s.state == Running then WantLoadCheck else WantClean)
      && (s'.balancer == WantClean && s.balancer != WantClean ==>
            s.balancer == InLoadCheck || (s.balancer == LoadCheck && s.state != Running))
  {
    var s := After(c, actions);
    AfterStep(c, actions, a);
    if !a.Balance? {
      OthersMoveBalancer(c, s, a);
    }
  }

  /** The balancer has the mutex and begins to check the load. */
  predicate ChecksLoad(s: Pool) {
    s.balancer == InLoadCheck && s.manager == ReadActive
  }

  ghost predicate Checked(c: Config, actions: seq<Action>, n: nat, m: nat)
    requires ValidateConfigBasic(c).Accepted? && n <= m <= |actions|
  {
    exists k :: n <= k <= m && ChecksLoad(After(c, actions[..k]))
  }

  /** On the way from the nap to the load check, or told to exit. */
  predicate BeforeCheck(pc: BalancerPc) {
    pc.Napping? || pc.LoadCheck? || pc.WantLoadCheck? || pc.Gone?
  }

  lemma StepOfRound(c: Config, s: Pool, a: Action)
    requires Shaped(c, s) && s.state == Running && BeforeCheck(s.balancer)
    ensures BeforeCheck(Next(c, s, a).balancer) || ChecksLoad(Next(c, s, a))
  {
    if !a.Balance? {
      OthersMoveBalancer(c, s, a);
    }
  }

  lemma NextOfRound(c: Config, actions: seq<Action>, m: nat)
    requires ValidateConfigBasic(c).Accepted? && m < |actions|
    requires After(c, actions[..m]).state == Running && BeforeCheck(After(c, actions[..m]).balancer)
    ensures BeforeCheck(After(c, actions[..m + 1]).balancer) || ChecksLoad(After(c, actions[..m + 1]))
  {
    AfterPrefix(c, actions, m);
    StepOfRound(c, After(c, actions[..m]), actions[m]);
  }

  ghost predicate RunningFrom(c: Config, actions: seq<Action>, n: nat)
    requires ValidateConfigBasic(c).Accepted?
  {
    forall k :: n <= k <= |actions| ==> After(c, actions[..k]).state == Running
  }

  lemma {:induction false} RoundSoFar(c: Config, actions: seq<Action>, n: nat, m: nat)
    requires ValidateConfigBasic(c).Accepted? && n <= m <= |actions|
    requires After(c, actions[..n]).balancer == Napping && RunningFrom(c, actions, n)
    ensures Checked(c, actions, n, m) || BeforeCheck(After(c, actions[..m]).balancer)
    decreases m
  {
    if n < m {
      var k := m - 1;
      RoundSoFar(c, actions, n, k);
      if Checked(c, actions, n, k) {
        CheckedLater(c, actions, n, k);
      } else {
        NextOfRound(c, actions, k);
        JustChecked(c, actions, n, m);
      }
    }
  }

  lemma CheckedLater(c: Config, actions: seq<Action>, n: nat, m: nat)
    requires ValidateConfigBasic(c).Accepted? && n <= m < |actions| && Checked(c, actions, n, m)
    ensures Checked(c, actions, n, m + 1)
  {
    var k :| n <= k <= m && ChecksLoad(After(c, actions[..k]));
  }

  lemma JustChecked(c: Config, actions: seq<Action>, n: nat, m: nat)
    requires ValidateConfigBasic(c).Accepted? && n <= m <= |actions|
    ensures ChecksLoad(After(c, actions[..m])) ==> Checked(c, actions, n, m)
  {
  }

  /** Each round in the running state checks the load: between the nap and the next turn of the loop
      the balancer enters loadCheck and reads the active threads. */
  lemma RoundChecksLoad(c: Config, actions: seq<Action>, n: nat) returns (k: nat)
    requires ValidateConfigBasic(c).Accepted? && n <= |actions|
    requires After(c, actions[..n]).balancer == Napping && After(c, actions).balancer == Looping
    requires RunningFrom(c, actions, n)
    ensures n <= k <= |actions| && ChecksLoad(After(c, actions[..k]))
  {
    RoundSoFar(c, actions, n, |actions|);
    assert actions[..|actions|] == actions;
    k :| n <= k <= |actions| && ChecksLoad(After(c, actions[..k]));
  }

  /** loadCheck called from outside goes on exactly in the running state, and then checks the load
      as soon as nobody else is inside. */
  lemma OutsideLoadCheck(c: Config, actions: seq<Action>)
    requires ValidateConfigBasic(c).Accepted?
    ensures
      var s := After(c, actions);
      && After(c, actions + [CheckLoad]).checkers == s.checkers + (if s.state == Running then 1 else 0)
      && (s.checkers > 0 && s.manager == Idle && !BalancerJoined(s.control) ==>
            After(c, actions + [EnterCheck]).manager == ReadActive)
  {
    AfterStep(c, actions, CheckLoad);
    AfterStep(c, actions, EnterCheck);
  }

  // ----- scans and cleaning passes -----

  /** Told to exit already, or not idle often enough. */
  predicate NotToRetire(c: Config, w: Slot) {
    w.exitFlag || w.idle < c.consecutiveIdleCount
  }

  predicate Cleaned(w: Slot) {
    w.exitFlag ==> !w.joinable
  }

  /** What whoever is inside loadCheck or cleanFinishedThread has left behind so far: no slot ready
      to be retired before the one the scan is at, no finished thread unjoined before the one the
      cleaning is at, no old idle count in the slot of a new thread. */
  ghost predicate PassOk(c: Config, s: Pool) {
    match s.manager
    case Scan(i) => ScannedTo(c, s, i)
    case TestIdle(i) => ScannedTo(c, s, i)
    case Retire(i) => ScannedTo(c, s, i)
    case Clean(i) => CleanedTo(s, i)
    case ClearFlag(i) => i < |s.slots| ==> s.slots[i].idle == 0
    case _ => true
  }

  ghost predicate ScannedTo(c: Config, s: Pool, i: nat) {
    forall j :: c.coreThreads <= j < i && j < |s.slots| ==> NotToRetire(c, s.slots[j])
  }

  ghost predicate CleanedTo(s: Pool, i: nat) {
    forall j :: 0 <= j < i && j < |s.slots| ==> Cleaned(s.slots[j])
  }

  /** Idle counts and thread objects only go away, and flags stay. */
  ghost predicate OnlyLess(s: Pool, s': Pool) {
    && |s'.slots| == |s.slots|
    && forall j :: 0 <= j < |s.slots| ==>
         && s'.slots[j].exitFlag == s.slots[j].exitFlag && s'.slots[j].idle <= s.slots[j].idle
         && (s'.slots[j].joinable ==> s.slots[j].joinable)
  }

  lemma OthersOnlyLess(c: Config, s: Pool, a: Action)
    requires Shaped(c, s) && !a.Manage?
    ensures OnlyLess(s, Next(c, s, a))
    ensures
      var s' := Next(c, s, a);
      s'.manager == s.manager || s'.manager == ReadActive || s'.manager == Clean(0)
  {
    match a
    case Work(i, choice) =>
    case Control(choice) =>
    case _ =>
  }

  lemma OnlyLessPasses(c: Config, s: Pool, s': Pool)
    requires PassOk(c, s) && OnlyLess(s, s')
    requires s'.manager == s.manager || s'.manager == ReadActive || s'.manager == Clean(0)
    ensures PassOk(c, s')
  {
  }

  /** Only the slot the manager is at changes, but for sleepers that wake. */
  lemma ManagedElsewhere(s: Pool, pc: ManagerPc, choice: bool, j: nat)
    requires j < |s.slots| && j != Target(s)
    ensures ManagedSlots(s, pc, choice)[j] == s.slots[j].(pc := ManagedSlots(s, pc, choice)[j].pc)
  {
  }

  lemma ManageScans(c: Config, s: Pool, choice: bool)
    requires Shaped(c, s) && SlotTable.ManagerOk(c, s) && PassOk(c, s) && (s.manager.Scan? || s.manager.TestIdle?)
    ensures PassOk(c, ManagerStep(c, s, choice))
  {
    var pc, s' := NextManagerPc(c, s, choice), ManagerStep(c, s, choice);
    forall j | 0 <= j < |s.slots| && j != Target(s) ensures s'.slots[j] == s.slots[j] {
      if pc != s.manager {
        ManagedElsewhere(s, pc, choice, j);
      }
    }
    ScanPasses(c, s, s', choice);
  }

  lemma ScanPasses(c: Config, s: Pool, s': Pool, choice: bool)
    requires Shaped(c, s) && SlotTable.ManagerOk(c, s) && PassOk(c, s) && (s.manager.Scan? || s.manager.TestIdle?)
    requires s' == ManagerStep(c, s, choice)
    requires forall j :: 0 <= j < |s.slots| && j != Target(s) ==> s'.slots[j] == s.slots[j]
    ensures PassOk(c, s')
  {
  }

  lemma ManageCleans(c: Config, s: Pool, choice: bool)
    requires Shaped(c, s) && PassOk(c, s) && s.manager.Clean?
    ensures PassOk(c, ManagerStep(c, s, choice))
  {
    var pc, s' := NextManagerPc(c, s, choice), ManagerStep(c, s, choice);
    forall j | 0 <= j < |s.slots| && j != Target(s) ensures s'.slots[j] == s.slots[j] {
      if pc != s.manager {
        ManagedElsewhere(s, pc, choice, j);
      }
    }
  }

  lemma ManageElse(c: Config, s: Pool, choice: bool)
    requires Shaped(c, s) && PassOk(c, s) && !s.manager.Scan? && !s.manager.TestIdle? && !s.manager.Clean?
    ensures PassOk(c, ManagerStep(c, s, choice))
  {
  }

  lemma ManagePasses(c: Config, s: Pool, choice: bool)
    requires Shaped(c, s) && SlotTable.ManagerOk(c, s) && PassOk(c, s)
    ensures PassOk(c, ManagerStep(c, s, choice))
  {
    if s.manager.Scan? || s.manager.TestIdle? {
      ManageScans(c, s, choice);
    } else if s.manager.Clean? {
      ManageCleans(c, s, choice);
    } else {
      ManageElse(c, s, choice);
    }
  }

  lemma {:induction false} AfterPasses(c: Config, actions: seq<Action>)
    requires ValidateConfigBasic(c).Accepted?
    ensures PassOk(c, After(c, actions))
    decreases |actions|
  {
    if actions != [] {
      var n := |actions| - 1;
      AfterPasses(c, actions[..n]);
      AfterInv(c, actions[..n]);
      AfterLast(c, actions);
      PassesOn(c, After(c, actions[..n]), actions[n]);
    }
  }

  lemma PassesOn(c: Config, s: Pool, a: Action)
    requires Shaped(c, s) && SlotTable.ManagerOk(c, s) && PassOk(c, s)
    ensures PassOk(c, Next(c, s, a))
  {
    if a.Manage? {
      ManagePasses(c, s, a.choice);
    } else {
      OthersOnlyLess(c, s, a);
      OnlyLessPasses(c, s, Next(c, s, a));
    }
  }

  /** A scan that ends without retiring anybody has left no extra slot that is unflagged and has been
      idle often enough; one that retires a worker retires the first such slot. */
  lemma ScanFindsFirst(c: Config, actions: seq<Action>, a: Action, j: nat)
    requires ValidateConfigBasic(c).Accepted? && c.coreThreads <= j < After(c, actions).size
    ensures
      var s, s' := After(c, actions), After(c, actions + [a]);
      && (s.manager.Scan? && s'.manager == Idle ==> NotToRetire(c, s.slots[j]))
      && (s.manager.Retire? && j < s.manager.i ==> NotToRetire(c, s.slots[j]))
  {
    AfterPasses(c, actions);
    AfterStep(c, actions, a);
    ScanEnds(c, After(c, actions), a);
  }

  lemma ScanEnds(c: Config, s: Pool, a: Action)
    requires Shaped(c, s)
    ensures s.manager.Scan? && Next(c, s, a).manager == Idle ==> s.manager.i >= s.size
    ensures s.manager.Clean? && Next(c, s, a).manager == Idle ==> s.manager.i >= s.size
  {
    if !a.Manage? {
      OthersOnlyLess(c, s, a);
    }
  }

  /** A finished cleaning pass leaves no flagged slot whose thread is not joined. */
  lemma CleanLeavesNone(c: Config, actions: seq<Action>, a: Action, j: nat)
    requires ValidateConfigBasic(c).Accepted? && j < c.maxThreads
    requires After(c, actions).manager.Clean? && After(c, actions + [a]).manager == Idle
    ensures j < After(c, actions).size ==> Cleaned(After(c, actions).slots[j])
  {
    AfterPasses(c, actions);
    AfterStep(c, actions, a);
    ScanEnds(c, After(c, actions), a);
  }

  /** The balancer is inside cleanFinishedThread and nowhere else. */
  predicate CleaningOk(s: Pool) {
    s.balancer == InClean ==> s.manager.Clean?
  }

  lemma StepCleaning(c: Config, s: Pool, a: Action)
    requires SlotTable.Table(c, s) && CleaningOk(s)
    ensures CleaningOk(Next(c, s, a))
  {
    match a
    case Work(i, choice) =>
    case Manage(choice) =>
    case Control(choice) =>
    case _ =>
  }

  lemma {:induction false} AfterCleaning(c: Config, actions: seq<Action>)
    requires ValidateConfigBasic(c).Accepted?
    ensures CleaningOk(After(c, actions))
    decreases |actions|
  {
    if actions != [] {
      var n := |actions| - 1;
      AfterCleaning(c, actions[..n]);
      AfterInv(c, actions[..n]);
      AfterLast(c, actions);
      StepCleaning(c, After(c, actions[..n]), actions[n]);
    }
  }

  lemma EndsRound(c: Config, actions: seq<Action>, a: Action)
    requires ValidateConfigBasic(c).Accepted?
    requires After(c, actions).balancer != Looping && After(c, actions + [a]).balancer == Looping
    ensures After(c, actions).balancer == InClean && After(c, actions + [a]).manager == Idle
  {
    AfterStep(c, actions, a);
    if !a.Balance? {
      OthersMoveBalancer(c, After(c, actions), a);
    }
  }

  /** Each round ends with a cleaning pass over every slot: as the balancer gets back to the top of
      its loop there is no flagged slot whose thread is not joined. */
  lemma RoundCleans(c: Config, actions: seq<Action>, a: Action, j: nat)
    requires ValidateConfigBasic(c).Accepted? && j < After(c, actions).size
    requires After(c, actions).balancer != Looping && After(c, actions + [a]).balancer == Looping
    ensures After(c, actions).manager.Clean? && Cleaned(After(c, actions).slots[j])
  {
    EndsRound(c, actions, a);
    AfterCleaning(c, actions);
    CleanLeavesNone(c, actions, a, j);
  }
}
