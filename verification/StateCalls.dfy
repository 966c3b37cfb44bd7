/** pause, resume, shutdown and stop called by any number of threads at once. All they share is
    state_, which each of them only touches while it holds state_mutex_; what happens between two
    such holds takes any time at all. */
module StateCalls {
  import opened Configs
  import opened Pools
  import opened Steps
  import opened Lifecycle

  datatype Caller =
    | WantPause
    | WantResume
    | AtGuard(option: ShutdownOption)   // shutdown
    | Inside(option: ShutdownOption)    // past the guard, waiting
    | AtForce                           // forceStop
    | AtStop                            // stop, which may also be called directly
    | Over

  predicate Entry(caller: Caller) {
    caller.WantPause? || caller.WantResume? || caller.AtGuard? || caller.AtStop?
  }

  datatype System = System(state: State, callers: seq<Caller>, passed: nat, forced: nat)

  /** `timeout` is what a wait with a time limit ends in. */
  function Turn(s: System, i: nat, timeout: bool): System {
    if i >= |s.callers| then s
    else
      match s.callers[i]
      case WantPause => s.(state := if s.state == Running then Paused else s.state, callers := s.callers[i := Over])
      case WantResume => s.(state := if s.state == Paused then Running else s.state, callers := s.callers[i := Over])
      case AtGuard(option) =>
        if s.state != Running && s.state != Paused then s.(callers := s.callers[i := Over])
        else s.(state := ShuttingDown, callers := s.callers[i := Inside(option)], passed := s.passed + 1)
      case Inside(option) =>
        s.(callers := s.callers[i := if option == Force || (option == WaitFor && timeout) then AtForce else AtStop])
      case AtForce =>
        if s.state == ForceShutting || s.state == Stopped then s.(callers := s.callers[i := Over])
        else s.(state := ForceShutting, callers := s.callers[i := AtStop], forced := s.forced + 1)
      case AtStop => s.(state := Stopped, callers := s.callers[i := Over])
      case Over => s
  }

  datatype Choice = Choice(caller: nat, timeout: bool)

  function Play(s: System, schedule: seq<Choice>): System
    decreases |schedule|
  {
    if schedule == [] then s
    else
      var n := |schedule| - 1;
      Turn(Play(s, schedule[..n]), schedule[n].caller, schedule[n].timeout)
  }

  ghost predicate Begun(s: System, callers: seq<Caller>) {
    s == System(Running, callers, 0, 0) && forall caller <- callers :: Entry(caller)
  }

  lemma TurnRank(s: System, i: nat, timeout: bool)
    ensures Rank(s.state) <= Rank(Turn(s, i, timeout).state)
    ensures s.state == Stopped ==> Turn(s, i, timeout).state == Stopped
  {
  }

  lemma {:induction false} PlayRank(s: System, schedule: seq<Choice>, n: nat)
    requires n <= |schedule|
    ensures
      var before, after := Play(s, schedule[..n]), Play(s, schedule);
      Rank(before.state) <= Rank(after.state) && (before.state == Stopped ==> after.state == Stopped)
    decreases |schedule|
  {
    if n == |schedule| {
      assert schedule[..n] == schedule;
    } else {
      var m := |schedule| - 1;
      PlayRank(s, schedule[..m], n);
      assert schedule[..m][..n] == schedule[..n];
      TurnRank(Play(s, schedule[..m]), schedule[m].caller, schedule[m].timeout);
    }
  }

  lemma {:induction false} PlayPassed(s: System, callers: seq<Caller>, schedule: seq<Choice>)
    requires Begun(s, callers)
    ensures
      var s' := Play(s, schedule);
      && s'.passed <= 1 && (s'.passed > 0 ==> Rank(s'.state) >= 1)
      && s'.forced <= 1 && (s'.forced > 0 ==> Rank(s'.state) >= 2)
    decreases |schedule|
  {
    if schedule != [] {
      PlayPassed(s, callers, schedule[..|schedule| - 1]);
    }
  }

  /** However many threads call pause, resume, shutdown and stop, in whatever order: the state
      never goes back, a stopped pool stays stopped, at most one shutdown passes its guard and
      at most one forceStop its own. */
  lemma CallersMonotone(s: System, callers: seq<Caller>, schedule: seq<Choice>, n: nat)
    requires Begun(s, callers) && n <= |schedule|
    ensures
      var before, after := Play(s, schedule[..n]), Play(s, schedule);
      && Rank(before.state) <= Rank(after.state)
      && (before.state == Stopped ==> after.state == Stopped)
      && after.passed <= 1 && after.forced <= 1
  {
    PlayRank(s, schedule, n);
    PlayPassed(s, callers, schedule);
  }

  /** Which of these calls a step of the pool is, if it touches state_. */
  function CallOf(s: Pool, a: Action): Caller {
    match a
    case PausePool => WantPause
    case ResumePool => WantResume
    case Shutdown(option) => if s.control == Outside then AtGuard(option) else Over
    case Control(_) =>
      if s.control == Forcing then AtForce else if s.control == Finish then AtStop else Over
    case _ => Over
  }

  lemma QuietOnState(c: Config, s: Pool, a: Action)
    requires Shaped(c, s) && !a.PausePool? && !a.ResumePool? && !a.Shutdown? && !a.Control?
    ensures Next(c, s, a).state == s.state
  {
  }

  lemma ControlOnState(s: Pool, choice: bool)
    requires s.q.Valid() && s.size <= |s.slots|
    ensures ControlStep(s, choice).state
            == if s.control == Forcing && s.state != Stopped then ForceShutting
               else if s.control == Finish then Stopped
               else s.state
  {
  }

  /** The pool's own steps do to state_ what the calls do. */
  lemma PoolStepIsCall(c: Config, s: Pool, a: Action)
    requires Shaped(c, s)
    ensures Next(c, s, a).state == Turn(System(s.state, [CallOf(s, a)], 0, 0), 0, false).state
  {
    match a
    case PausePool =>
    case ResumePool =>
    case Shutdown(option) =>
    case Control(choice) => ControlOnState(s, choice);
    case _ => QuietOnState(c, s, a);
  }

  /** Where a call of shutdown or stop is that has got so far in the pool. */
  function CallerAt(pc: ControlPc): Caller {
    match pc
    case WantWait => Inside(WaitAll)
    case EvalWait => Inside(WaitAll)
    case AsleepWait => Inside(WaitAll)
    case PollRunning => Inside(WaitFor)
    case PollPending(_) => Inside(WaitFor)
    case Forcing => AtForce
    case Outside => Over
    case Returned => Over
    case _ => AtStop
  }

  /** A call of shutdown goes from its guard to the wait that was asked for, or to forceStop. */
  lemma ShutdownIsTurn(s: Pool, option: ShutdownOption)
    requires s.control == Outside && Lifecycle.Rank(s.state) == 0
    ensures
      var turned := Turn(System(s.state, [AtGuard(option)], 0, 0), 0, false);
      var s' := ShutdownBegins(s, option);
      && s'.state == turned.state && turned.callers == [Inside(option)]
      && CallerAt(s'.control) == if option == Force then AtForce else Inside(option)
  {
  }

  /** Each step of the controlling thread leaves the call where it is or is its next turn; it is the
      turn of a time limit only if the limit has passed, and it is some turn whenever a poll has
      both counters before it and they are zero or the limit has passed. */
  lemma ControlIsTurn(s: Pool, choice: bool)
    requires s.q.Valid() && s.size <= |s.slots| && Lifecycle.Placed(s) && s.control != Outside
    ensures
      var before, s' := System(s.state, [CallerAt(s.control)], 0, 0), ControlStep(s, choice);
      && ( || (s'.state == s.state && CallerAt(s'.control) == CallerAt(s.control))
           || IsTurn(before, s', false)
           || (choice && IsTurn(before, s', true)))
      && (s.control.PollPending? && (choice || (s.control.running == 0 && s.pending == 0)) ==>
            CallerAt(s'.control) != CallerAt(s.control))
  {
  }

  predicate IsTurn(before: System, s': Pool, timeout: bool) {
    var turned := Turn(before, 0, timeout);
    turned.state == s'.state && turned.callers == [CallerAt(s'.control)]
  }
}
