/** Runs of the pool: any interleaving of the steps of any number of threads, from
    construction on. */
module Runs {
  import opened Configs
  import opened Pools
  import opened Steps
  import opened Tallies
  import SlotTable
  import Locking
  import Accounting
  import Waking
  import Limits
  import opened Invariants

  /** One step after the other. The last case never comes up: every step keeps the
      shape of the pool. */
  ghost function Execute(c: Config, s: Pool, actions: seq<Action>): (s': Pool)
    requires Shaped(c, s)
    ensures Shaped(c, s')
    decreases |actions|
  {
    if actions == [] then s
    else
      var next := Next(c, s, actions[0]);
      if Shaped(c, next) then Execute(c, next, actions[1..]) else s
  }

  lemma {:induction false} ExecuteInv(c: Config, s: Pool, actions: seq<Action>)
    requires Inv(c, s)
    ensures Inv(c, Execute(c, s, actions))
    decreases |actions|
  {
    if actions != [] {
      NextInv(c, s, actions[0]);
      ExecuteInv(c, Next(c, s, actions[0]), actions[1..]);
    }
  }

  lemma TallyInitial(c: Config)
    requires c.coreThreads <= c.maxThreads
    ensures
      var slots := CoreWorkers(c);
      && Tally(slots, HasThread) == c.coreThreads
      && forall k :: k != HasThread && k != Willing ==> Tally(slots, k) == 0
  {
    var slots := CoreWorkers(c);
    CountFull(slots, HasThread, c.coreThreads);
    CountTail(slots, HasThread, c.coreThreads, |slots|);
    forall k | k != HasThread && k != Willing ensures Tally(slots, k) == 0 {
      forall i | 0 <= i < |slots| ensures !Hit(k, slots[i]) {
        assert slots[i].pc == Top || slots[i].pc == Absent;
      }
      TallyNone(slots, k);
    }
  }

  lemma InitialSlots(c: Config)
    requires Usable(c)
    ensures
      var s := Initial(c);
      SlotTable.Table(c, s) && Locking.Locked(s) && Waking.Awake(s) && Limits.Limited(s)
  {
    var s := Initial(c);
    forall i | 0 <= i < |s.slots|
      ensures SlotTable.SlotOk(c, s, i) && Locking.LockOk(s, i) && Waking.WakeOk(s, i) && Limits.LimitOk(s, i)
    {
    }
  }

  lemma InitialCounts(c: Config)
    requires Usable(c)
    ensures
      var s := Initial(c);
      SlotTable.ThreadsCounted(c, s) && Accounting.Accounted(s) && Accounting.Owned(s)
  {
    TallyInitial(c);
    assert Accounting.Uncounting(Initial(c).submits) == {};
  }

  lemma InitialInv(c: Config)
    requires Usable(c)
    ensures Inv(c, Initial(c))
  {
    InitialSlots(c);
    InitialCounts(c);
  }

  /** The pool after a run of a pool built from an accepted configuration. */
  ghost function After(c: Config, actions: seq<Action>): (s: Pool)
    requires ValidateConfigBasic(c).Accepted?
    ensures Shaped(c, s)
  {
    Execute(c, Initial(c), actions)
  }

  lemma AfterInv(c: Config, actions: seq<Action>)
    requires ValidateConfigBasic(c).Accepted?
    ensures Inv(c, After(c, actions))
  {
    InitialInv(c);
    ExecuteInv(c, Initial(c), actions);
  }

  lemma {:induction false} ExecuteAppend(c: Config, s: Pool, xs: seq<Action>, ys: seq<Action>)
    requires Inv(c, s)
    ensures Execute(c, s, xs + ys) == Execute(c, Execute(c, s, xs), ys)
    decreases |xs|
  {
    if xs == [] {
      assert xs + ys == ys;
    } else {
      assert (xs + ys)[1..] == xs[1..] + ys;
      NextInv(c, s, xs[0]);
      ExecuteAppend(c, Next(c, s, xs[0]), xs[1..], ys);
    }
  }

  lemma ExecuteOne(c: Config, s: Pool, a: Action)
    requires Inv(c, s)
    ensures Execute(c, s, [a]) == Next(c, s, a)
  {
    NextInv(c, s, a);
    assert [a][1..] == [];
  }

  lemma ExecuteNext(c: Config, s: Pool, actions: seq<Action>, n: nat)
    requires Inv(c, s) && n < |actions|
    ensures Execute(c, s, actions[..n + 1]) == Next(c, Execute(c, s, actions[..n]), actions[n])
  {
    assert actions[..n + 1] == actions[..n] + [actions[n]];
    ExecuteAppend(c, s, actions[..n], [actions[n]]);
    ExecuteInv(c, s, actions[..n]);
    ExecuteOne(c, Execute(c, s, actions[..n]), actions[n]);
  }

  /** One more step of a run. */
  lemma AfterStep(c: Config, actions: seq<Action>, a: Action)
    requires ValidateConfigBasic(c).Accepted?
    ensures After(c, actions + [a]) == Next(c, After(c, actions), a)
  {
    InitialInv(c);
    AfterInv(c, actions);
    ExecuteAppend(c, Initial(c), actions, [a]);
    ExecuteOne(c, After(c, actions), a);
  }

  /** A run is its last step after the run before it. */
  lemma AfterLast(c: Config, actions: seq<Action>)
    requires ValidateConfigBasic(c).Accepted? && actions != []
    ensures
      var n := |actions| - 1;
      After(c, actions) == Next(c, After(c, actions[..n]), actions[n])
  {
    var n := |actions| - 1;
    AfterStep(c, actions[..n], actions[n]);
    assert actions[..n] + [actions[n]] == actions;
  }

  lemma AfterPrefix(c: Config, actions: seq<Action>, m: nat)
    requires ValidateConfigBasic(c).Accepted? && m < |actions|
    ensures After(c, actions[..m + 1]) == Next(c, After(c, actions[..m]), actions[m])
  {
    assert actions[..m + 1] == actions[..m] + [actions[m]];
    AfterStep(c, actions[..m], actions[m]);
  }
}
