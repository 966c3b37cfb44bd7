/** shutdown(FORCE) and stop always come to their end: some thread can always move, and whichever
    threads do, they can only do so finitely often. */
module Progress {
  import opened Configs
  import opened Pools
  import opened Steps
  import opened Tallies
  import opened Lifecycle
  import SlotTable
  import Locking
  import Waking
  import Shutdowns
  import opened Invariants
  import opened Runs
  import opened Measures

  /** Inside forceStop or stop. */
  predicate Driving(pc: ControlPc) {
    pc.Forcing? || Draining(pc) || Shutdowns.Stopping(pc)
  }

  /** A step of a thread that is inside, which nobody has to wake up for without reason. */
  predicate MovesOn(c: Config, s: Pool, a: Action)
    requires Shaped(c, s)
  {
    Internal(a) && !Spurious(s, a) && Next(c, s, a) != s
  }

  ghost predicate SomebodyMoves(c: Config, s: Pool)
    requires Shaped(c, s)
  {
    exists a :: MovesOn(c, s, a)
  }

  /** A thread that can move whenever the controlling thread drains or stops the pool. */
  function Mover(s: Pool): Action {
    if s.lock.Worker? then Work(s.lock.i, true)
    else if s.control.JoinBalancer? && s.manager.JoinOld? && !HasExited(s, s.manager.i) then
      Work(s.manager.i, true)
    else if s.control.JoinBalancer? && s.manager.Clean? && MustJoin(s, s.manager.i)
            && !HasExited(s, s.manager.i) then
      Work(s.manager.i, true)
    else if s.control.JoinBalancer? && s.manager != Idle then Manage(true)
    else if s.control.JoinBalancer? && s.balancer != Gone then Balance(false)
    else if s.control.Join? && s.control.i < |s.slots| && s.slots[s.control.i].joinable
            && !HasExited(s, s.control.i) then
      Work(s.control.i, true)
    else Control(false)
  }

  /** A worker that is neither gone nor asleep moves once queue_mutex_ is free and stop has
      been announced. */
  lemma WorkerMovesOn(s: Pool, i: nat)
    requires i < |s.slots| && Locking.LockOk(s, i)
    requires s.slots[i].pc != Exited && s.slots[i].pc != Absent
    requires s.slots[i].pc != PauseSpin || s.stopped || s.state != Paused
    requires s.lock == Free || s.lock == Worker(i)
    ensures NextWorkerPc(s, s.slots[i], true) != s.slots[i].pc
  {
  }

  lemma HolderMovesOn(s: Pool, i: nat)
    requires i < |s.slots| && Locking.LockOk(s, i) && s.lock == Worker(i)
    ensures NextWorkerPc(s, s.slots[i], true) != s.slots[i].pc
  {
  }

  lemma WorkerIsMover(c: Config, s: Pool, i: nat)
    requires Shaped(c, s) && i < |s.slots| && s.slots[i].pc != Asleep
    requires NextWorkerPc(s, s.slots[i], true) != s.slots[i].pc
    ensures MovesOn(c, s, Work(i, true))
  {
    var s' := WorkerStep(s, i, true);
    assert s'.slots[i].pc == NextWorkerPc(s, s.slots[i], true);
  }

  lemma OtherIsMover(c: Config, s: Pool)
    requires SlotTable.Table(c, s) && Placed(s) && Locking.Locked(s)
    requires Driving(s.control) && !s.control.Returned? && !s.lock.Worker? && !Mover(s).Work?
    ensures MovesOn(c, s, Mover(s))
  {
  }

  /** No deadlock while draining or stopping, whatever the other threads are doing. */
  lemma StopNeverStuck(c: Config, s: Pool)
    requires SlotTable.Table(c, s) && Placed(s) && Locking.Locked(s) && Waking.Awake(s)
    requires Driving(s.control) && !s.control.Returned?
    ensures MovesOn(c, s, Mover(s))
  {
    if s.lock.Worker? {
      assert Locking.LockOk(s, s.lock.i);
      HolderMovesOn(s, s.lock.i);
      WorkerIsMover(c, s, s.lock.i);
    } else {
      match Mover(s) {
        case Work(i, _) =>
          assert SlotTable.SlotOk(c, s, i) && Locking.LockOk(s, i) && Waking.WakeOk(s, i);
          WorkerMovesOn(s, i);
          WorkerIsMover(c, s, i);
        case _ => OtherIsMover(c, s);
      }
    }
  }

  // ----- calls and wake-ups from outside -----

  /** stop leaves the state running until the end when it was not called by shutdown, so it can
      still be that submit calls and load checks are let in. */
  predicate LetsSubmitIn(s: Pool, a: Action) {
    a.BeginSubmit? && s.state == Running && a.t !in s.submits
  }

  predicate LetsCheckIn(s: Pool, a: Action) {
    a.CheckLoad? && s.state == Running
  }

  lemma NewInPhase(submits: map<Task, SubmitPc>, t: Task, phase: nat)
    requires t !in submits
    ensures |InPhase(submits[t := Checked], phase)| == |InPhase(submits, phase)| + One(phase == 32)
  {
    var before, after := InPhase(submits, phase), InPhase(submits[t := Checked], phase);
    assert t !in before;
    if phase == 32 {
      assert after == before + {t};
    } else {
      assert after == before;
    }
  }

  lemma SubmitLetIn(c: Config, s: Pool, t: Task)
    requires s.state == Running && t !in s.submits
    ensures StepsLeft(c, SubmitBegins(s, t)) == StepsLeft(c, s) + 32
  {
    NewInPhase(s.submits, t, 32);
    NewInPhase(s.submits, t, 31);
    NewInPhase(s.submits, t, 8);
    NewInPhase(s.submits, t, 7);
  }

  lemma CheckLetIn(c: Config, s: Pool)
    requires s.state == Running
    ensures StepsLeft(c, CallLoadCheck(s)) == StepsLeft(c, s) + CheckLeft(c)
  {
    assert CheckLeft(c) * (s.checkers + 1) == CheckLeft(c) * s.checkers + CheckLeft(c);
  }

  /** A worker that wakes up without a task looks at the queue and falls asleep again. */
  lemma WorkerWakes(c: Config, s: Pool, i: nat)
    requires Shaped(c, s) && IsAsleep(s.slots, i)
    ensures StepsLeft(c, WorkerStep(s, i, true)) == StepsLeft(c, s) + 6
  {
    WorkersLeftUpdate(s.slots, i, s.slots[i].(pc := WantLock), Dry(s));
    assert WorkerStep(s, i, true).slots == s.slots[i := s.slots[i].(pc := WantLock)];
  }

  lemma WaiterWakes(c: Config, s: Pool)
    requires Shaped(c, s) && s.control == AsleepWait
    ensures StepsLeft(c, ControlStep(s, true)) == StepsLeft(c, s) + 2
  {
  }

  /** Every other call leaves the account as it is, or better. */
  lemma OutsideStep(c: Config, s: Pool, a: Action)
    requires Shaped(c, s) && Placed(s) && Ending(s) && !Internal(a)
    requires !LetsSubmitIn(s, a) && !LetsCheckIn(s, a)
    ensures StepsLeft(c, Next(c, s, a)) <= StepsLeft(c, s)
  {
  }

  lemma SpuriousStep(c: Config, s: Pool, a: Action)
    requires Inv(c, s) && Ending(s) && Spurious(s, a)
    ensures StepsLeft(c, Next(c, s, a)) <= StepsLeft(c, s) + 6
  {
    match a
    case Work(i, choice) => WorkerWakes(c, s, i);
    case Control(choice) => WaiterWakes(c, s);
    case Balance(wakes) => BalancerStepsDown(c, s, wakes);
  }

  function Price(c: Config, s: Pool, a: Action): nat {
    if LetsSubmitIn(s, a) then 32 else if LetsCheckIn(s, a) then CheckLeft(c) else if Spurious(s, a) then 6 else 0
  }

  /** Any step of a pool on its way to its end. */
  lemma StepAccount(c: Config, s: Pool, a: Action)
    requires Inv(c, s) && Ending(s)
    ensures StepsLeft(c, Next(c, s, a)) + One(MovesOn(c, s, a)) <= StepsLeft(c, s) + Price(c, s, a)
  {
    if LetsSubmitIn(s, a) {
      SubmitLetIn(c, s, a.t);
    } else if LetsCheckIn(s, a) {
      CheckLetIn(c, s);
    } else if Spurious(s, a) {
      SpuriousStep(c, s, a);
    } else if Internal(a) {
      if Next(c, s, a) != s {
        StepsLeftDrops(c, s, a);
      }
    } else {
      OutsideStep(c, s, a);
    }
  }

  /** How often, in a run, a thread that is inside made a step that changed something, and how
      many submit calls, load checks and spurious wake-ups there were meanwhile. */
  datatype Account = Account(moves: nat, submits: nat, checks: nat, wakes: nat)

  function FirstEntry(c: Config, s: Pool, a: Action): Account
    requires Shaped(c, s)
  {
    Account(One(MovesOn(c, s, a)), One(LetsSubmitIn(s, a)), One(LetsCheckIn(s, a)), One(Spurious(s, a)))
  }

  function Plus(first: Account, rest: Account): Account {
    Account(first.moves + rest.moves, first.submits + rest.submits, first.checks + rest.checks,
            first.wakes + rest.wakes)
  }

  ghost function AccountOf(c: Config, s: Pool, actions: seq<Action>): Account
    requires Shaped(c, s)
    decreases |actions|
  {
    if actions == [] || !Shaped(c, Next(c, s, actions[0])) then Account(0, 0, 0, 0)
    else Plus(FirstEntry(c, s, actions[0]), AccountOf(c, Next(c, s, actions[0]), actions[1..]))
  }

  /** What the calls that were let in and the wake-ups add to the steps left. */
  function Priced(c: Config, account: Account): nat {
    32 * account.submits + CheckLeft(c) * account.checks + 6 * account.wakes
  }

  lemma PricedSplits(c: Config, first: Account, rest: Account)
    ensures Priced(c, Plus(first, rest)) == Priced(c, first) + Priced(c, rest)
  {
    assert CheckLeft(c) * (first.checks + rest.checks) == CheckLeft(c) * first.checks + CheckLeft(c) * rest.checks;
  }

  lemma FirstPrice(c: Config, s: Pool, a: Action)
    requires Shaped(c, s)
    ensures Priced(c, FirstEntry(c, s, a)) == Price(c, s, a)
  {
  }

  /** The first step of a run and what it adds to the account. */
  lemma FirstStep(c: Config, s: Pool, actions: seq<Action>) returns (next: Pool, first: Account)
    requires Inv(c, s) && Ending(s) && actions != []
    ensures Inv(c, next) && Ending(next) && Execute(c, s, actions) == Execute(c, next, actions[1..])
    ensures AccountOf(c, s, actions) == Plus(first, AccountOf(c, next, actions[1..]))
    ensures StepsLeft(c, next) + first.moves <= StepsLeft(c, s) + Priced(c, first)
  {
    next, first := Next(c, s, actions[0]), FirstEntry(c, s, actions[0]);
    NextInv(c, s, actions[0]);
    StepAccount(c, s, actions[0]);
    FirstPrice(c, s, actions[0]);
    EndingStays(c, s, actions[0]);
  }

  /** On its way to its end the threads of a pool make only so many steps, in every interleaving
      and whatever calls arrive: no more than were left, 32 for every submit call and
      9 * max_threads + 30 for every load check let in, and 6 for every spurious wake-up. */
  lemma {:induction false} EndAccount(c: Config, s: Pool, actions: seq<Action>)
    requires Inv(c, s) && Ending(s)
    ensures Inv(c, Execute(c, s, actions)) && Ending(Execute(c, s, actions))
    ensures StepsLeft(c, Execute(c, s, actions)) + AccountOf(c, s, actions).moves
            <= StepsLeft(c, s) + Priced(c, AccountOf(c, s, actions))
    decreases |actions|
  {
    if actions != [] {
      var next, first := FirstStep(c, s, actions);
      EndAccount(c, next, actions[1..]);
      PricedSplits(c, first, AccountOf(c, next, actions[1..]));
    }
  }

  lemma LateStep(c: Config, s: Pool, actions: seq<Action>) returns (next: Pool, first: Account)
    requires Inv(c, s) && Rank(s.state) >= 1 && actions != []
    ensures Inv(c, next) && Rank(next.state) >= 1 && first.submits == first.checks == 0
    ensures AccountOf(c, s, actions) == Plus(first, AccountOf(c, next, actions[1..]))
  {
    next, first := Next(c, s, actions[0]), FirstEntry(c, s, actions[0]);
    NextInv(c, s, actions[0]);
    RankNeverDrops(c, s, actions[0]);
  }

  lemma {:induction false} NobodyLetIn(c: Config, s: Pool, actions: seq<Action>)
    requires Inv(c, s) && Rank(s.state) >= 1
    ensures AccountOf(c, s, actions).submits == AccountOf(c, s, actions).checks == 0
    decreases |actions|
  {
    if actions != [] {
      var next, first := LateStep(c, s, actions);
      NobodyLetIn(c, next, actions[1..]);
    }
  }

  lemma PricedLate(c: Config, s: Pool, actions: seq<Action>)
    requires Inv(c, s)
    ensures Rank(s.state) >= 1 ==> Priced(c, AccountOf(c, s, actions)) == 6 * AccountOf(c, s, actions).wakes
  {
    if Rank(s.state) >= 1 {
      NobodyLetIn(c, s, actions);
      OnlyWakesPriced(c, AccountOf(c, s, actions));
    }
  }

  lemma OnlyWakesPriced(c: Config, account: Account)
    requires account.submits == account.checks == 0
    ensures Priced(c, account) == 6 * account.wakes
  {
  }

  // ----- forceStop and stop -----

  lemma DrivingStays(c: Config, s: Pool, a: Action)
    requires Shaped(c, s) && Driving(s.control)
    ensures Driving(Next(c, s, a).control)
  {
    match a
    case Work(i, choice) => if i < |s.slots| { assert s.control != AsleepWait; }
    case Manage(choice) => assert ManagerStep(c, s, choice).control == s.control;
    case Control(choice) => assert Driving(NextControlPc(s, choice));
    case _ =>
  }

  lemma {:induction false} DrivingThrough(c: Config, s: Pool, actions: seq<Action>)
    requires Inv(c, s) && Driving(s.control)
    ensures Driving(Execute(c, s, actions).control)
    decreases |actions|
  {
    if actions != [] {
      NextInv(c, s, actions[0]);
      DrivingStays(c, s, actions[0]);
      DrivingThrough(c, Next(c, s, actions[0]), actions[1..]);
    }
  }

  lemma ReturnedOrMoves(c: Config, s: Pool)
    requires Inv(c, s) && Ending(s) && Driving(s.control)
    ensures (s.control == Returned && s.state == Stopped) || (StepsLeft(c, s) > 0 && SomebodyMoves(c, s))
  {
    if s.control == Returned {
      assert Placed(s);
    } else {
      StopNeverStuck(c, s);
      assert MovesOn(c, s, Mover(s));
      StepsLeftDrops(c, s, Mover(s));
    }
  }

  /** forceStop, and stop from stopped_ on, come to their end in every interleaving, whatever calls
      arrive meanwhile. The threads that are inside make no more steps than EndAccount allows;
      no call is let in once shutdown has begun. As long as stop has not returned, one of them
      can make a step; so when all those steps are made stop has returned. */
  lemma StopReturns(c: Config, s: Pool, actions: seq<Action>)
    requires Inv(c, s) && Ending(s) && Driving(s.control)
    ensures
      var s', account := Execute(c, s, actions), AccountOf(c, s, actions);
      && account.moves <= StepsLeft(c, s) + Priced(c, account)
      && (Rank(s.state) >= 1 ==> Priced(c, account) == 6 * account.wakes)
      && (s'.control == Returned || SomebodyMoves(c, s'))
      && (account.moves == StepsLeft(c, s) + Priced(c, account) ==> s'.control == Returned && s'.state == Stopped)
  {
    EndAccount(c, s, actions);
    DrivingThrough(c, s, actions);
    PricedLate(c, s, actions);
    ReturnedOrMoves(c, Execute(c, s, actions));
  }

  /** A scheduler lets one thread after the other make a step. A diligent one never picks a
      waiting thread while another could move. */
  ghost predicate Diligent(c: Config, schedule: Pool -> Pool) {
    forall s :: Schedules(c, s, schedule)
  }

  ghost predicate Schedules(c: Config, s: Pool, schedule: Pool -> Pool) {
    Inv(c, s) && Ending(s) && Driving(s.control) && !s.control.Returned? ==>
      exists a :: MovesOn(c, s, a) && schedule(s) == Next(c, s, a)
  }

  function Drive(s: Pool, schedule: Pool -> Pool, n: nat): Pool
    decreases n
  {
    if n == 0 || s.control.Returned? then s else Drive(schedule(s), schedule, n - 1)
  }

  /** With no new calls, whatever diligent scheduler runs the threads, forceStop and stop return
      within a number of steps that is known beforehand. */
  lemma {:induction false} DrivenStopReturns(c: Config, s: Pool, schedule: Pool -> Pool, n: nat)
    requires Inv(c, s) && Ending(s) && Driving(s.control) && Diligent(c, schedule) && StepsLeft(c, s) <= n
    ensures Drive(s, schedule, n).control == Returned && Drive(s, schedule, n).state == Stopped
    decreases n
  {
    if s.control.Returned? {
      assert Placed(s);
    } else {
      ScheduleDrops(c, s, schedule);
      DrivenStopReturns(c, schedule(s), schedule, n - 1);
    }
  }

  lemma ScheduleDrops(c: Config, s: Pool, schedule: Pool -> Pool)
    requires Inv(c, s) && Ending(s) && Driving(s.control) && !s.control.Returned? && Diligent(c, schedule)
    ensures Inv(c, schedule(s)) && Ending(schedule(s)) && Driving(schedule(s).control)
    ensures StepsLeft(c, schedule(s)) < StepsLeft(c, s)
  {
    assert Schedules(c, s, schedule);
    var a :| MovesOn(c, s, a) && schedule(s) == Next(c, s, a);
    NextInv(c, s, a);
    StepsLeftDrops(c, s, a);
    EndingStays(c, s, a);
    DrivingStays(c, s, a);
  }

  ghost function Moving(c: Config): Pool -> Pool {
    s => if Shaped(c, s) then Next(c, s, Mover(s)) else s
  }

  /** Such schedulers exist. */
  lemma MoverIsDiligent(c: Config)
    ensures Diligent(c, Moving(c))
  {
    forall s ensures Schedules(c, s, Moving(c)) {
      if Inv(c, s) && Ending(s) && Driving(s.control) && !s.control.Returned? {
        StopNeverStuck(c, s);
      }
    }
  }
}
