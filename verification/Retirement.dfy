/** Which workers are told to exit, and after how many idle scans. */
module Retirement {
  import opened Configs
  import opened Pools
  import opened Tallies
  import opened Steps
  import SlotTable
  import Locking
  import opened Switches
  import opened Runs

  /** Taking a task and starting a new thread both put the idle count of slot i back. */
  predicate Resets(s: Pool, a: Action, i: nat) {
    || (a.Work? && a.i == i && i < |s.slots| && s.slots[i].pc.Activated?)
    || (a.Manage? && s.manager == ResetIdle(i))
  }

  predicate FindsIdle(s: Pool, a: Action, i: nat) {
    a == Manage(true) && s.manager == Scan(i) && i < s.size && i < |s.slots| && !s.slots[i].exitFlag
  }

  /** How many scans of a run have counted slot i since its worker last took a task or was started.
      A scan counts a worker that has taken none for the threshold, be it idle or still busy with
      the task it took then. */
  ghost function IdleScans(c: Config, actions: seq<Action>, i: nat): nat
    requires ValidateConfigBasic(c).Accepted?
    decreases |actions|
  {
    if actions == [] then 0
    else
      var n := |actions| - 1;
      var s := After(c, actions[..n]);
      if Resets(s, actions[n], i) then 0
      else if FindsIdle(s, actions[n], i) then IdleScans(c, actions[..n], i) + 1
      else IdleScans(c, actions[..n], i)
  }

  function IdleAfter(s: Pool, a: Action, i: nat): nat
    requires i < |s.slots|
  {
    if Resets(s, a, i) then 0 else if FindsIdle(s, a, i) then s.slots[i].idle + 1 else s.slots[i].idle
  }

  lemma WorkIdle(s: Pool, j: nat, choice: bool, i: nat)
    requires s.q.Valid() && i < |s.slots| && j < |s.slots|
    ensures WorkerStep(s, j, choice).slots[i].idle == IdleAfter(s, Work(j, choice), i)
    ensures WorkerStep(s, j, choice).slots[i].exitFlag == s.slots[i].exitFlag
  {
  }

  lemma ManageIdle(c: Config, s: Pool, choice: bool, i: nat)
    requires Shaped(c, s) && i < |s.slots|
    ensures ManagerStep(c, s, choice).slots[i].idle == IdleAfter(s, Manage(choice), i)
    ensures ManagerStep(c, s, choice).slots[i].exitFlag && !s.slots[i].exitFlag ==> s.manager == Retire(i)
  {
  }

  lemma OthersIdle(c: Config, s: Pool, a: Action, i: nat)
    requires Shaped(c, s) && i < |s.slots| && !a.Work? && !a.Manage?
    ensures |Next(c, s, a).slots| == |s.slots|
    ensures Next(c, s, a).slots[i].idle == s.slots[i].idle && Next(c, s, a).slots[i].exitFlag == s.slots[i].exitFlag
  {
  }

  lemma StepIdle(c: Config, s: Pool, a: Action, i: nat)
    requires Shaped(c, s) && Shaped(c, Next(c, s, a)) && i < |s.slots|
    ensures Next(c, s, a).slots[i].idle == IdleAfter(s, a, i)
    ensures Next(c, s, a).slots[i].exitFlag && !s.slots[i].exitFlag ==> s.manager == Retire(i)
  {
    match a
    case Work(j, choice) => if j < |s.slots| { WorkIdle(s, j, choice, i); }
    case Manage(choice) => ManageIdle(c, s, choice, i);
    case _ => OthersIdle(c, s, a, i);
  }

  /** The idle count of a slot is the number of these scans, after every run. */
  lemma {:induction false} IdleCounted(c: Config, actions: seq<Action>, i: nat)
    requires ValidateConfigBasic(c).Accepted? && i < c.maxThreads
    ensures After(c, actions).slots[i].idle == IdleScans(c, actions, i)
    decreases |actions|
  {
    if actions != [] {
      var n := |actions| - 1;
      IdleCounted(c, actions[..n], i);
      LastIdle(c, actions, n, i);
    }
  }

  lemma LastIdle(c: Config, actions: seq<Action>, n: nat, i: nat)
    requires ValidateConfigBasic(c).Accepted? && n + 1 == |actions| && i < c.maxThreads
    ensures After(c, actions).slots[i].idle == IdleAfter(After(c, actions[..n]), actions[n], i)
  {
    AfterLast(c, actions);
    StepIdle(c, After(c, actions[..n]), actions[n], i);
  }

  /** After the first n steps the load check had counted enough idle scans of slot i, and it
      has been about to tell that worker to exit ever since. */
  ghost predicate Decided(c: Config, actions: seq<Action>, n: nat, i: nat)
    requires ValidateConfigBasic(c).Accepted?
  {
    && n <= |actions|
    && After(c, actions[..n]).manager == TestIdle(i)
    && IdleScans(c, actions[..n], i) >= c.consecutiveIdleCount
    && forall m :: n < m <= |actions| ==> After(c, actions[..m]).manager == Retire(i)
  }

  lemma Decides(c: Config, s: Pool, a: Action, i: nat)
    requires Shaped(c, s) && i < |s.slots|
    ensures Next(c, s, a).manager == Retire(i) && s.manager != Retire(i) ==>
              s.manager == TestIdle(i) && s.slots[i].idle >= c.consecutiveIdleCount
  {
    if !a.Manage? {
      OthersDecideNothing(c, s, a, i);
    }
  }

  lemma OthersDecideNothing(c: Config, s: Pool, a: Action, i: nat)
    requires Shaped(c, s) && !a.Manage?
    ensures Next(c, s, a).manager == Retire(i) ==> s.manager == Retire(i)
  {
  }

  lemma StillDecided(c: Config, actions: seq<Action>, k: nat, n: nat, i: nat)
    requires ValidateConfigBasic(c).Accepted? && k + 1 == |actions|
    requires Decided(c, actions[..k], n, i) && After(c, actions).manager == Retire(i)
    ensures Decided(c, actions, n, i)
  {
    assert actions[..k][..n] == actions[..n];
    forall m | n < m <= |actions| ensures After(c, actions[..m]).manager == Retire(i) {
      if m <= k {
        assert actions[..k][..m] == actions[..m];
      } else {
        assert actions[..m] == actions;
      }
    }
  }

  lemma LastDecides(c: Config, actions: seq<Action>, k: nat, i: nat)
    requires ValidateConfigBasic(c).Accepted? && k + 1 == |actions| && i < c.maxThreads
    ensures
      var s := After(c, actions[..k]);
      After(c, actions).manager == Retire(i) && s.manager != Retire(i) ==>
        s.manager == TestIdle(i) && s.slots[i].idle >= c.consecutiveIdleCount
  {
    AfterLast(c, actions);
    Decides(c, After(c, actions[..k]), actions[k], i);
  }

  lemma JustDecided(c: Config, actions: seq<Action>, k: nat, i: nat)
    requires ValidateConfigBasic(c).Accepted? && k + 1 == |actions| && i < c.maxThreads
    requires After(c, actions).manager == Retire(i) && After(c, actions[..k]).manager != Retire(i)
    ensures Decided(c, actions, k, i)
  {
    LastDecides(c, actions, k, i);
    IdleCounted(c, actions[..k], i);
    forall m | k < m <= |actions| ensures After(c, actions[..m]).manager == Retire(i) {
      assert actions[..m] == actions;
    }
  }

  lemma {:induction false} RetireDecided(c: Config, actions: seq<Action>, i: nat) returns (n: nat)
    requires ValidateConfigBasic(c).Accepted? && i < c.maxThreads
    requires After(c, actions).manager == Retire(i)
    ensures Decided(c, actions, n, i)
    decreases |actions|
  {
    if actions == [] {
      assert false;
    } else {
      var k := |actions| - 1;
      if After(c, actions[..k]).manager == Retire(i) {
        n := RetireDecided(c, actions[..k], i);
        StillDecided(c, actions, k, n, i);
      } else {
        n := k;
        JustDecided(c, actions, k, i);
      }
    }
  }

  /** A worker is only told to exit after as many idle scans as the configuration asks for,
      counted since it last took a task or was started, up to the decision. It is never a core
      worker. */
  lemma FlaggedWhenIdle(c: Config, actions: seq<Action>, a: Action, i: nat)
    requires ValidateConfigBasic(c).Accepted? && i < c.maxThreads
    ensures
      var s, s' := After(c, actions), After(c, actions + [a]);
      s'.slots[i].exitFlag && !s.slots[i].exitFlag ==>
        c.coreThreads <= i && exists n :: Decided(c, actions, n, i)
  {
    AfterInv(c, actions);
    var s := After(c, actions);
    AfterStep(c, actions, a);
    StepIdle(c, s, a, i);
    if After(c, actions + [a]).slots[i].exitFlag && !s.slots[i].exitFlag {
      var n := RetireDecided(c, actions, i);
    }
  }

  // ----- whether the idle scans still count when the flag is set -----

  ghost predicate ResetAt(c: Config, actions: seq<Action>, r: nat, i: nat)
    requires ValidateConfigBasic(c).Accepted? && r < |actions|
  {
    Resets(After(c, actions[..r]), actions[r], i)
  }

  /** At which steps of a run worker i took a task, or was started anew. */
  ghost function TaskTaken(c: Config, actions: seq<Action>, i: nat): (taken: seq<bool>)
    requires ValidateConfigBasic(c).Accepted?
    ensures |taken| == |actions|
    ensures forall r :: 0 <= r < |actions| ==> (taken[r] <==> ResetAt(c, actions, r, i))
  {
    seq(|actions|, r requires 0 <= r < |actions| => ResetAt(c, actions, r, i))
  }

  ghost function IdleCounts(c: Config, actions: seq<Action>, i: nat): (idle: seq<nat>)
    requires ValidateConfigBasic(c).Accepted? && i < c.maxThreads
    ensures |idle| == |actions| + 1
    ensures forall m :: 0 <= m <= |actions| ==> idle[m] == IdleAt(c, actions, m, i)
  {
    seq(|actions| + 1, m requires 0 <= m <= |actions| => IdleAt(c, actions, m, i))
  }

  ghost function IdleAt(c: Config, actions: seq<Action>, m: nat, i: nat): nat
    requires ValidateConfigBasic(c).Accepted? && m <= |actions| && i < c.maxThreads
  {
    After(c, actions[..m]).slots[i].idle
  }

  lemma RetiringIdle(c: Config, s: Pool, a: Action, i: nat)
    requires Shaped(c, s) && Shaped(c, Next(c, s, a)) && i < |s.slots| && s.manager == Retire(i)
    ensures Next(c, s, a).slots[i].idle == if Resets(s, a, i) then 0 else s.slots[i].idle
  {
    StepIdle(c, s, a, i);
  }

  lemma DecidingIdle(c: Config, s: Pool, a: Action, i: nat)
    requires Shaped(c, s) && Shaped(c, Next(c, s, a)) && i < |s.slots| && s.manager == TestIdle(i)
    requires Next(c, s, a).manager != s.manager
    ensures Next(c, s, a).slots[i].idle == s.slots[i].idle
  {
    StepIdle(c, s, a, i);
  }

  lemma RightAfterDecision(c: Config, actions: seq<Action>, n: nat, i: nat)
    requires ValidateConfigBasic(c).Accepted? && i < c.maxThreads && n < |actions|
    requires After(c, actions[..n]).manager == TestIdle(i) && After(c, actions[..n + 1]).manager == Retire(i)
    ensures After(c, actions[..n + 1]).slots[i].idle == After(c, actions[..n]).slots[i].idle
  {
    AfterPrefix(c, actions, n);
    DecidingIdle(c, After(c, actions[..n]), actions[n], i);
  }

  lemma WhileRetiring(c: Config, actions: seq<Action>, k: nat, i: nat)
    requires ValidateConfigBasic(c).Accepted? && i < c.maxThreads && k < |actions|
    requires After(c, actions[..k]).manager == Retire(i)
    ensures After(c, actions[..k + 1]).slots[i].idle
            == if ResetAt(c, actions, k, i) then 0 else After(c, actions[..k]).slots[i].idle
  {
    AfterPrefix(c, actions, k);
    RetiringIdle(c, After(c, actions[..k]), actions[k], i);
  }

  lemma NextIdle(c: Config, actions: seq<Action>, n: nat, k: nat, i: nat)
    requires ValidateConfigBasic(c).Accepted? && i < c.maxThreads && Decided(c, actions, n, i) && n <= k < |actions|
    ensures IdleAt(c, actions, k + 1, i)
            == if k > n && ResetAt(c, actions, k, i) then 0 else IdleAt(c, actions, k, i)
  {
    if k == n {
      RightAfterDecision(c, actions, n, i);
    } else {
      WhileRetiring(c, actions, k, i);
    }
  }

  predicate KeptOrResetAt(idle: seq<nat>, reset: seq<bool>, n: nat, k: nat)
    requires |idle| == |reset| + 1 && k < |reset|
  {
    idle[k + 1] == if k > n && reset[k] then 0 else idle[k]
  }

  lemma {:induction false} KeptOrReset(idle: seq<nat>, reset: seq<bool>, n: nat, k: nat)
    requires |idle| == |reset| + 1 && n <= k < |reset|
    requires forall j :: n <= j <= k ==> KeptOrResetAt(idle, reset, n, j)
    ensures idle[k + 1] == if exists r :: n < r <= k && reset[r] then 0 else idle[n]
    decreases k
  {
    assert KeptOrResetAt(idle, reset, n, k);
    if k > n {
      KeptOrReset(idle, reset, n, k - 1);
    }
  }

  /** From the decision on the idle count is what it was, or zero once the worker took a task. */
  lemma SinceDecision(c: Config, actions: seq<Action>, n: nat, i: nat)
    requires ValidateConfigBasic(c).Accepted? && i < c.maxThreads && Decided(c, actions, n, i) && n < |actions|
    ensures
      var idle, taken := IdleCounts(c, actions, i), TaskTaken(c, actions, i);
      idle[|actions|] == if exists r :: n < r < |actions| && taken[r] then 0 else idle[n]
  {
    IdleSequence(c, actions, n, i);
    KeptOrReset(IdleCounts(c, actions, i), TaskTaken(c, actions, i), n, |actions| - 1);
  }

  lemma IdleSequence(c: Config, actions: seq<Action>, n: nat, i: nat)
    requires ValidateConfigBasic(c).Accepted? && i < c.maxThreads && Decided(c, actions, n, i)
    ensures
      var idle, taken := IdleCounts(c, actions, i), TaskTaken(c, actions, i);
      forall j :: n <= j < |actions| ==> KeptOrResetAt(idle, taken, n, j)
  {
    var idle, taken := IdleCounts(c, actions, i), TaskTaken(c, actions, i);
    forall j | n <= j < |actions| ensures KeptOrResetAt(idle, taken, n, j) {
      NextKeptOrReset(c, actions, n, j, i);
    }
  }

  lemma NextKeptOrReset(c: Config, actions: seq<Action>, n: nat, k: nat, i: nat)
    requires ValidateConfigBasic(c).Accepted? && i < c.maxThreads && Decided(c, actions, n, i) && n <= k < |actions|
    ensures KeptOrResetAt(IdleCounts(c, actions, i), TaskTaken(c, actions, i), n, k)
  {
    NextIdle(c, actions, n, k, i);
  }

  lemma DecidedIdle(c: Config, actions: seq<Action>, n: nat, i: nat)
    requires ValidateConfigBasic(c).Accepted? && i < c.maxThreads && Decided(c, actions, n, i)
    ensures IdleAt(c, actions, n, i) >= c.consecutiveIdleCount
  {
    IdleCounted(c, actions[..n], i);
  }

  lemma JustifiedAt(c: Config, actions: seq<Action>, n: nat, i: nat)
    requires ValidateConfigBasic(c).Accepted? && i < c.maxThreads && Decided(c, actions, n, i) && n < |actions|
    ensures IdleAt(c, actions, |actions|, i) >= c.consecutiveIdleCount
            <==> c.consecutiveIdleCount == 0 || forall r :: n < r < |actions| ==> !TaskTaken(c, actions, i)[r]
  {
    DecidedIdle(c, actions, n, i);
    SinceDecision(c, actions, n, i);
  }

  lemma DecidedBefore(c: Config, actions: seq<Action>, n: nat, i: nat)
    requires ValidateConfigBasic(c).Accepted? && Decided(c, actions, n, i) && After(c, actions).manager == Retire(i)
    ensures n < |actions| && actions[..|actions|] == actions
  {
    assert actions[..|actions|] == actions;
  }

  lemma FlagKeepsIdle(c: Config, s: Pool, a: Action, i: nat)
    requires Shaped(c, s) && |Next(c, s, a).slots| == |s.slots| && i < |s.slots|
    requires Next(c, s, a).slots[i].exitFlag && !s.slots[i].exitFlag
    ensures Next(c, s, a).slots[i].idle == s.slots[i].idle
  {
    match a
    case Work(j, choice) => if j < |s.slots| { WorkIdle(s, j, choice, i); }
    case Manage(choice) => ManageIdle(c, s, choice, i);
    case _ => OthersIdle(c, s, a, i);
  }

  /** When the flag is set the idle count is still what the decision asked for exactly if the worker
      took no task between the decision and the flag. */
  lemma IdleCountKeptIff(c: Config, actions: seq<Action>, a: Action, i: nat) returns (n: nat)
    requires ValidateConfigBasic(c).Accepted? && i < c.maxThreads
    requires After(c, actions + [a]).slots[i].exitFlag && !After(c, actions).slots[i].exitFlag
    ensures n < |actions| && Decided(c, actions, n, i)
    ensures After(c, actions + [a]).slots[i].idle >= c.consecutiveIdleCount
            <==> c.consecutiveIdleCount == 0 || forall r :: n < r < |actions| ==> !TaskTaken(c, actions, i)[r]
  {
    AfterStep(c, actions, a);
    StepIdle(c, After(c, actions), a, i);
    n := RetireDecided(c, actions, i);
    DecidedBefore(c, actions, n, i);
    JustifiedAt(c, actions, n, i);
    FlagKeepsIdle(c, After(c, actions), a, i);
  }

  // ----- whether the worker that is told to exit has a task in hand -----

  /** From the dequeue to the end of the execution. */
  predicate InHand(w: Slot) {
    w.pc.Got? || w.pc.Activated? || w.pc.Stamped? || w.pc.Executing?
  }

  predicate TakesTask(s: Pool, a: Action, i: nat) {
    a.Work? && a.i == i && i < |s.slots| && s.slots[i].pc == Dequeuing && s.q.ring.items != []
  }

  predicate FinishesTask(s: Pool, a: Action, i: nat) {
    a.Work? && a.i == i && i < |s.slots| && s.slots[i].pc.Executing?
  }

  lemma WorkInHand(s: Pool, j: nat, choice: bool, i: nat)
    requires s.q.Valid() && i < |s.slots| && j < |s.slots|
    ensures
      var a := Work(j, choice);
      InHand(WorkerStep(s, j, choice).slots[i])
      <==> TakesTask(s, a, i) || (InHand(s.slots[i]) && !FinishesTask(s, a, i))
  {
    if j == i {
      EdgeInHand(s, s.slots[i], choice);
      assert WorkerStep(s, i, choice).slots[i].pc == NextWorkerPc(s, s.slots[i], choice);
    }
  }

  lemma EdgeInHand(s: Pool, w: Slot, choice: bool)
    ensures InHand(w.(pc := NextWorkerPc(s, w, choice)))
            <==> (w.pc == Dequeuing && s.q.ring.items != []) || (InHand(w) && !w.pc.Executing?)
  {
  }

  lemma ManageInHand(c: Config, s: Pool, choice: bool, i: nat)
    requires SlotTable.Table(c, s) && i < |s.slots|
    ensures InHand(ManagerStep(c, s, choice).slots[i]) <==> InHand(s.slots[i])
  {
    if NextManagerPc(c, s, choice) != s.manager {
      SlotTable.ManagerSameWork(c, s, choice, i);
    }
  }

  lemma OthersInHand(c: Config, s: Pool, a: Action, i: nat)
    requires Shaped(c, s) && i < |s.slots| && !a.Work? && !a.Manage?
    ensures InHand(Next(c, s, a).slots[i]) <==> InHand(s.slots[i])
  {
  }

  lemma StepInHand(c: Config, s: Pool, a: Action, i: nat)
    requires SlotTable.Table(c, s) && i < |s.slots|
    ensures |Next(c, s, a).slots| == |s.slots|
    ensures InHand(Next(c, s, a).slots[i])
            <==> TakesTask(s, a, i) || (InHand(s.slots[i]) && !FinishesTask(s, a, i))
  {
    match a
    case Work(j, choice) => if j < |s.slots| { WorkInHand(s, j, choice, i); }
    case Manage(choice) => ManageInHand(c, s, choice, i);
    case _ => OthersInHand(c, s, a, i);
  }

  ghost function InHandAt(c: Config, past: seq<Action>, future: seq<Action>, i: nat): (r: seq<bool>)
    requires ValidateConfigBasic(c).Accepted? && i < c.maxThreads
    ensures |r| == |future| + 1
    ensures forall k :: 0 <= k <= |future| ==> r[k] == InHand(After(c, past + future[..k]).slots[i])
  {
    seq(|future| + 1, k requires 0 <= k <= |future| => InHand(After(c, past + future[..k]).slots[i]))
  }

  ghost function TakesAt(c: Config, past: seq<Action>, future: seq<Action>, i: nat): (r: seq<bool>)
    requires ValidateConfigBasic(c).Accepted?
    ensures |r| == |future|
    ensures forall k :: 0 <= k < |future| ==> r[k] == TakesTask(After(c, past + future[..k]), future[k], i)
  {
    seq(|future|, k requires 0 <= k < |future| => TakesTask(After(c, past + future[..k]), future[k], i))
  }

  ghost function FinishesAt(c: Config, past: seq<Action>, future: seq<Action>, i: nat): (r: seq<bool>)
    requires ValidateConfigBasic(c).Accepted?
    ensures |r| == |future|
    ensures forall k :: 0 <= k < |future| ==> r[k] == FinishesTask(After(c, past + future[..k]), future[k], i)
  {
    seq(|future|, k requires 0 <= k < |future| => FinishesTask(After(c, past + future[..k]), future[k], i))
  }

  lemma NextInHand(c: Config, actions: seq<Action>, a: Action, i: nat)
    requires ValidateConfigBasic(c).Accepted? && i < c.maxThreads
    ensures
      var s := After(c, actions);
      InHand(After(c, actions + [a]).slots[i])
      <==> TakesTask(s, a, i) || (InHand(s.slots[i]) && !FinishesTask(s, a, i))
  {
    AfterInv(c, actions);
    StepInHand(c, After(c, actions), a, i);
    AfterStep(c, actions, a);
  }

  lemma InHandStep(c: Config, past: seq<Action>, future: seq<Action>, i: nat, k: nat)
    requires ValidateConfigBasic(c).Accepted? && i < c.maxThreads && k < |future|
    ensures Switched(InHandAt(c, past, future, i), TakesAt(c, past, future, i), FinishesAt(c, past, future, i), k)
  {
    NextInHand(c, past + future[..k], future[k], i);
    assert past + future[..k + 1] == past + future[..k] + [future[k]];
  }

  /** A worker has a task in hand if and only if it took one and has not finished since, or had one
      to begin with and has not finished that. */
  lemma InHandIff(c: Config, past: seq<Action>, future: seq<Action>, i: nat)
    requires ValidateConfigBasic(c).Accepted? && i < c.maxThreads
    ensures
      var takes, finishes := TakesAt(c, past, future, i), FinishesAt(c, past, future, i);
      InHand(After(c, past + future).slots[i])
      <==> (exists k :: 0 <= k < |future| && takes[k] && Stays(finishes, k + 1))
           || (InHand(After(c, past).slots[i]) && Stays(finishes, 0))
  {
    var inHand := InHandAt(c, past, future, i);
    var takes, finishes := TakesAt(c, past, future, i), FinishesAt(c, past, future, i);
    forall k | 0 <= k < |future| ensures Switched(inHand, takes, finishes, k) {
      InHandStep(c, past, future, i, k);
    }
    LitIff(inHand, takes, finishes);
    assert past + future[..0] == past && future[..|future|] == future;
  }

  lemma FlagKeepsTask(c: Config, s: Pool, a: Action, i: nat)
    requires Shaped(c, s) && |Next(c, s, a).slots| == |s.slots| && i < |s.slots|
    requires s.manager == Retire(i) && Next(c, s, a).slots[i].exitFlag && !s.slots[i].exitFlag
    ensures InHand(Next(c, s, a).slots[i]) <==> InHand(s.slots[i])
  {
    match a
    case Work(j, choice) => if j < |s.slots| { WorkIdle(s, j, choice, i); }
    case Manage(choice) => FlaggingKeepsTask(c, s, choice, i);
    case _ => OthersIdle(c, s, a, i);
  }

  lemma FlaggingKeepsTask(c: Config, s: Pool, choice: bool, i: nat)
    requires Shaped(c, s) && i < |s.slots| && s.manager == Retire(i)
    ensures InHand(ManagerStep(c, s, choice).slots[i]) <==> InHand(s.slots[i])
  {
  }

  /** A worker is told to exit with a task in hand if and only if it took one between the decision
      and the flag and has not finished it, or has not finished the one it had at the decision. */
  lemma FlaggedInHandIff(c: Config, actions: seq<Action>, a: Action, i: nat) returns (n: nat)
    requires ValidateConfigBasic(c).Accepted? && i < c.maxThreads
    requires After(c, actions + [a]).slots[i].exitFlag && !After(c, actions).slots[i].exitFlag
    ensures n < |actions| && Decided(c, actions, n, i)
    ensures
      var past, future := actions[..n], actions[n..];
      var takes, finishes := TakesAt(c, past, future, i), FinishesAt(c, past, future, i);
      InHand(After(c, actions + [a]).slots[i])
      <==> (exists k :: 0 <= k < |future| && takes[k] && Stays(finishes, k + 1))
           || (InHand(After(c, past).slots[i]) && Stays(finishes, 0))
  {
    FlagSetByManager(c, actions, a, i);
    n := RetireDecided(c, actions, i);
    DecidedBefore(c, actions, n, i);
    assert actions[..n] + actions[n..] == actions;
    InHandIff(c, actions[..n], actions[n..], i);
  }

  lemma FlagSetByManager(c: Config, actions: seq<Action>, a: Action, i: nat)
    requires ValidateConfigBasic(c).Accepted? && i < c.maxThreads
    requires After(c, actions + [a]).slots[i].exitFlag && !After(c, actions).slots[i].exitFlag
    ensures After(c, actions).manager == Retire(i)
    ensures InHand(After(c, actions + [a]).slots[i]) <==> InHand(After(c, actions).slots[i])
  {
    AfterStep(c, actions, a);
    StepIdle(c, After(c, actions), a, i);
    FlagKeepsTask(c, After(c, actions), a, i);
  }


  lemma Leaves(s: Pool, i: nat, choice: bool)
    requires s.q.Valid() && i < |s.slots| && Locking.LockOk(s, i)
    requires NextWorkerPc(s, s.slots[i], choice) == Exited != s.slots[i].pc
    ensures forall t :: !Hit(Holding(t), s.slots[i])
    ensures !Hit(Owing, s.slots[i]) && !Hit(CountedRunning, s.slots[i]) && !Hit(CountedActive, s.slots[i])
    ensures
      var s' := WorkerStep(s, i, choice);
      s'.q == s.q && s'.past.executed == s.past.executed && s'.lock != Worker(i)
  {
  }

  /** A worker that leaves, through its flag or otherwise, holds no task and no mutex, counts in
      no counter, and takes nothing with it. */
  lemma LeavesEmptyHanded(c: Config, actions: seq<Action>, i: nat, choice: bool)
    requires ValidateConfigBasic(c).Accepted? && i < c.maxThreads
    requires After(c, actions).slots[i].pc != Exited
    requires NextWorkerPc(After(c, actions), After(c, actions).slots[i], choice) == Exited
    ensures
      var s, s' := After(c, actions), After(c, actions + [Work(i, choice)]);
      && (forall t :: !Hit(Holding(t), s.slots[i]))
      && !Hit(Owing, s.slots[i]) && !Hit(CountedRunning, s.slots[i]) && !Hit(CountedActive, s.slots[i])
      && s'.q == s.q && s'.past.executed == s.past.executed && s'.lock != Worker(i)
  {
    AfterInv(c, actions);
    AfterStep(c, actions, Work(i, choice));
    assert Locking.LockOk(After(c, actions), i);
    Leaves(After(c, actions), i, choice);
  }
}
