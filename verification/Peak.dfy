/** peak_thread is the largest thread count there ever was. */
module Peaks {
  import opened Configs
  import opened Pools
  import opened Steps
  import opened Runs

  lemma StepPeak(c: Config, s: Pool, a: Action)
    requires Shaped(c, s) && s.threadCount <= s.past.maxThreads
    ensures Next(c, s, a).past.maxThreads == Larger(s.past.maxThreads, Next(c, s, a).threadCount)
  {
    match a
    case Manage(choice) => ManagerPeak(c, s, choice);
    case _ =>
  }

  lemma ManagerPeak(c: Config, s: Pool, choice: bool)
    requires Shaped(c, s) && s.threadCount <= s.past.maxThreads
    ensures
      var s' := ManagerStep(c, s, choice);
      s'.past.maxThreads == Larger(s.past.maxThreads, s'.threadCount)
  {
  }

  lemma LastPeak(c: Config, actions: seq<Action>, k: nat)
    requires ValidateConfigBasic(c).Accepted? && k + 1 == |actions|
    ensures After(c, actions).past.maxThreads
            == Larger(After(c, actions[..k]).past.maxThreads, After(c, actions).threadCount)
  {
    AfterInv(c, actions[..k]);
    AfterLast(c, actions);
    StepPeak(c, After(c, actions[..k]), actions[k]);
  }

  lemma {:induction false} MaximumReached(c: Config, actions: seq<Action>) returns (n: nat)
    requires ValidateConfigBasic(c).Accepted?
    ensures n <= |actions| && After(c, actions[..n]).threadCount == After(c, actions).past.maxThreads
    decreases |actions|
  {
    AfterInv(c, actions);
    assert actions[..|actions|] == actions;
    n := |actions|;
    if actions != [] && After(c, actions).threadCount != After(c, actions).past.maxThreads {
      var k := |actions| - 1;
      LastPeak(c, actions, k);
      n := MaximumReached(c, actions[..k]);
      assert actions[..k][..n] == actions[..n];
    }
  }

  lemma {:induction false} MaximumBounds(c: Config, actions: seq<Action>, m: nat)
    requires ValidateConfigBasic(c).Accepted? && m <= |actions|
    ensures After(c, actions[..m]).threadCount <= After(c, actions).past.maxThreads
    decreases |actions|
  {
    AfterInv(c, actions);
    if m == |actions| {
      assert actions[..m] == actions;
    } else {
      var k := |actions| - 1;
      MaximumBounds(c, actions[..k], m);
      assert actions[..k][..m] == actions[..m];
      LastPeak(c, actions, k);
    }
  }

  /** Once the newest thread is recorded, peak_thread was reached by thread_count_ and never
      exceeded, and it is within the configured maximum. */
  lemma PeakIsMaximum(c: Config, actions: seq<Action>)
    requires ValidateConfigBasic(c).Accepted?
    ensures
      var s := After(c, actions);
      !s.manager.RecordThread? ==>
        && s.peak <= c.maxThreads
        && (forall m :: 0 <= m <= |actions| ==> After(c, actions[..m]).threadCount <= s.peak)
        && (exists n :: 0 <= n <= |actions| && After(c, actions[..n]).threadCount == s.peak)
  {
    AfterInv(c, actions);
    var s := After(c, actions);
    if !s.manager.RecordThread? {
      forall m | 0 <= m <= |actions| ensures After(c, actions[..m]).threadCount <= s.peak {
        MaximumBounds(c, actions, m);
      }
      var n := MaximumReached(c, actions);
    }
  }
}
