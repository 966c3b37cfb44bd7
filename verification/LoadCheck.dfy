/** loadCheck, from the two loads it decides on to the scan and the cleaning pass. */
module LoadChecks {
  import opened Configs
  import opened Pools
  import opened Steps
  import SlotTable
  import Accounting
  import Retirement
  import opened Runs
  import Origins

  // ----- the decision -----

  /** The load asks for another thread. */
  predicate Overloaded(c: Config, active: int, threads: int, pending: int) {
    && threads < c.maxThreads
    && ( || active as real >= c.expandFactor * threads as real
         || Unsigned(pending) >= c.taskLimit
         || Unsigned(pending) as real > c.avgTaskThreshold * threads as real)
  }

  /** The load lets a thread go. */
  predicate Underloaded(c: Config, active: int, threads: int) {
    threads > c.coreThreads && (active as real) < c.removeFactor * threads as real
  }

  lemma QuotientAtLeast(m: real, n: real, bound: real)
    requires n > 0.0
    ensures m / n >= bound <==> m >= bound * n
    ensures m / n < bound <==> m < bound * n
  {
    var q := m / n;
    assert q * n == m;
    if q >= bound {
      assert (q - bound) * n >= 0.0;
    } else {
      assert (bound - q) * n > 0.0;
    }
  }

  lemma QuotientAbove(m: real, n: real, bound: real)
    requires n > 0.0
    ensures m / n > bound <==> m > bound * n
  {
    QuotientAtLeast(-m, n, -bound);
    assert (-m) / n == -(m / n);
  }

  lemma Judged(c: Config, active: int, threads: int, pending: int)
    requires threads > 0
    ensures ShouldExpand(c, active, threads, pending) <==> Overloaded(c, active, threads, pending)
    ensures ShouldShrink(c, active, threads) <==> Underloaded(c, active, threads)
  {
    QuotientAtLeast(active as real, threads as real, c.expandFactor);
    QuotientAtLeast(active as real, threads as real, c.removeFactor);
    QuotientAbove(Unsigned(pending) as real, threads as real, c.avgTaskThreshold);
  }

  /** With the numbers it has read loadCheck grows if and only if the load asks for it, and starts a
      scan if and only if the load does not ask for that and lets a thread go. */
  lemma DecidesIff(c: Config, actions: seq<Action>, choice: bool)
    requires ValidateConfigBasic(c).Accepted? && After(c, actions).manager.ReadPending?
    ensures
      var s, s' := After(c, actions), After(c, actions + [Manage(choice)]);
      var grows := Overloaded(c, s.manager.active, s.threadCount, s.pending);
      && (s'.manager == Create <==> grows)
      && (s'.manager == Scan(c.coreThreads) <==> !grows && Underloaded(c, s.manager.active, s.threadCount))
      && (s'.manager == Create || s'.manager == Scan(c.coreThreads) || s'.manager == Idle)
  {
    var s := After(c, actions);
    AfterInv(c, actions);
    AfterStep(c, actions, Manage(choice));
    assert SlotTable.ThreadsCounted(c, s);
    Judged(c, s.manager.active, s.threadCount, s.pending);
    ManagerPcIs(c, s, choice);
  }

  lemma ManagerPcIs(c: Config, s: Pool, choice: bool)
    requires Shaped(c, s) && s.manager.ReadPending?
    ensures ManagerStep(c, s, choice).manager == NextManagerPc(c, s, choice)
  {
  }

  // ----- where a scan comes from -----

  /** In tryRemoveIdleThread. */
  predicate Scanning(pc: ManagerPc) {
    pc.Scan? || pc.TestIdle? || pc.Retire?
  }

  lemma StepScans(c: Config, s: Pool, a: Action)
    requires Shaped(c, s) && !Scanning(s.manager) && Scanning(Next(c, s, a).manager)
    ensures a.Manage? && s.manager.ReadPending? && ShouldShrink(c, s.manager.active, s.threadCount)
    ensures !ShouldExpand(c, s.manager.active, s.threadCount, s.pending)
  {
    match a
    case Manage(choice) =>
    case _ => OthersKeepManager(c, s, a);
  }

  lemma OthersKeepManager(c: Config, s: Pool, a: Action)
    requires Shaped(c, s) && !a.Manage?
    ensures
      var s' := Next(c, s, a);
      s'.manager == s.manager || s'.manager == ReadActive || s'.manager == Clean(0)
  {
    match a
    case Work(i, choice) =>
    case Control(choice) =>
    case _ =>
  }

  lemma StepReads(c: Config, s: Pool, a: Action, active: int)
    requires Shaped(c, s) && s.manager != ReadPending(active) && Next(c, s, a).manager == ReadPending(active)
    ensures a.Manage? && s.manager == ReadActive && s.active == active
  {
    match a
    case Manage(choice) =>
    case _ => OthersKeepManager(c, s, a);
  }

  /** After the first m steps active_threads_ was read, after the first n the rest, and the decision
      made on them was to look for a thread to remove; it has been carried out ever since. */
  ghost predicate LetGo(c: Config, actions: seq<Action>, m: nat, n: nat)
    requires ValidateConfigBasic(c).Accepted?
  {
    && m < n < |actions|
    && After(c, actions[..m]).manager == ReadActive
    && After(c, actions[..n]).manager == ReadPending(After(c, actions[..m]).active)
    && (forall k :: m < k <= n ==> After(c, actions[..k]).manager == ReadPending(After(c, actions[..m]).active))
    && (forall k :: n < k <= |actions| ==> Scanning(After(c, actions[..k]).manager))
    && Underloaded(c, After(c, actions[..m]).active, After(c, actions[..n]).threadCount)
    && !Overloaded(c, After(c, actions[..m]).active, After(c, actions[..n]).threadCount,
                   After(c, actions[..n]).pending)
  }

  lemma ScanBegan(c: Config, actions: seq<Action>) returns (n: nat)
    requires ValidateConfigBasic(c).Accepted? && Scanning(After(c, actions).manager)
    ensures n < |actions| && After(c, actions[..n]).manager.ReadPending?
    ensures forall k :: n < k <= |actions| ==> Scanning(After(c, actions[..k]).manager)
    ensures
      var s := After(c, actions[..n]);
      Underloaded(c, s.manager.active, s.threadCount) && !Overloaded(c, s.manager.active, s.threadCount, s.pending)
  {
    n := Origins.Entered(c, actions, (s: Pool) => Scanning(s.manager));
    AfterPrefix(c, actions, n);
    var s := After(c, actions[..n]);
    StepScans(c, s, actions[n]);
    AfterInv(c, actions[..n]);
    assert SlotTable.ThreadsCounted(c, s);
    Judged(c, s.manager.active, s.threadCount, s.pending);
  }

  lemma ReadBegan(c: Config, actions: seq<Action>, active: int) returns (m: nat)
    requires ValidateConfigBasic(c).Accepted? && After(c, actions).manager == ReadPending(active)
    ensures m < |actions| && After(c, actions[..m]).manager == ReadActive && After(c, actions[..m]).active == active
    ensures forall k :: m < k <= |actions| ==> After(c, actions[..k]).manager == ReadPending(active)
  {
    m := Origins.Entered(c, actions, (s: Pool) => s.manager == ReadPending(active));
    AfterPrefix(c, actions, m);
    StepReads(c, After(c, actions[..m]), actions[m], active);
  }

  /** Whenever a scan, an idle test or a flag is under way, the load check that began it had read
      more threads than core threads and a load below remove_factor, and no reason to grow. */
  lemma ScanMeansUnderload(c: Config, actions: seq<Action>) returns (m: nat, n: nat)
    requires ValidateConfigBasic(c).Accepted? && Scanning(After(c, actions).manager)
    ensures LetGo(c, actions, m, n)
  {
    n := ScanBegan(c, actions);
    m := ReadBegan(c, actions[..n], After(c, actions[..n]).manager.active);
    assert actions[..n][..m] == actions[..m];
    forall k | m < k <= n ensures After(c, actions[..k]).manager == ReadPending(After(c, actions[..m]).active) {
      assert actions[..n][..k] == actions[..k];
    }
  }

  /** With a remove_factor of zero nobody is ever told to exit. */
  lemma {:induction false} NobodyFlagged(c: Config, actions: seq<Action>, i: nat)
    requires ValidateConfigBasic(c).Accepted? && c.removeFactor <= 0.0 && i < c.maxThreads
    ensures !After(c, actions).slots[i].exitFlag
    decreases |actions|
  {
    if actions != [] {
      var n := |actions| - 1;
      NobodyFlagged(c, actions[..n], i);
      AfterLast(c, actions);
      if Scanning(After(c, actions[..n]).manager) {
        NeverScans(c, actions[..n]);
      }
      Retirement.StepIdle(c, After(c, actions[..n]), actions[n], i);
    }
  }

  lemma NeverScans(c: Config, actions: seq<Action>)
    requires ValidateConfigBasic(c).Accepted? && c.removeFactor <= 0.0
    ensures !Scanning(After(c, actions).manager)
  {
    if Scanning(After(c, actions).manager) {
      var m, n := ScanMeansUnderload(c, actions);
      AfterInv(c, actions[..m]);
      assert Accounting.Accounted(After(c, actions[..m]));
      NotBelow(c, After(c, actions[..m]).active, After(c, actions[..n]).threadCount);
    }
  }

  lemma NotBelow(c: Config, active: int, threads: int)
    requires c.removeFactor <= 0.0 && Underloaded(c, active, threads)
    ensures active < 0
  {
    assert c.removeFactor * threads as real <= 0.0;
  }
}
