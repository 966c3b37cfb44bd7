/** shutdown(WAIT_FOR): polling until nothing is left to do or the time limit has passed, and which
    shutdowns end in forceStop. */
module Timeouts {
  import opened Configs
  import opened Pools
  import opened Steps
  import Lifecycle
  import Shutdowns
  import opened Invariants
  import opened Runs
  import Origins
  import Measures
  import opened Progress

  /** Inside waitForRunningTask. */
  predicate Polling(pc: ControlPc) {
    pc.PollRunning? || pc.PollPending?
  }

  // ----- a poll -----

  lemma PollStep(c: Config, s: Pool, choice: bool)
    requires Shaped(c, s) && Polling(s.control)
    ensures
      var s' := Next(c, s, Control(choice));
      && s' == s.(control := s'.control)
      && s'.control == if s.control.PollRunning? then PollPending(s.running)
                       else if s.control.running == 0 && s.pending == 0 then StopBalancer
                       else if choice then Forcing
                       else PollRunning
  {
  }

  lemma OthersLetPoll(c: Config, s: Pool, a: Action)
    requires Shaped(c, s) && Polling(s.control) && !a.Control?
    ensures Next(c, s, a).control == s.control
  {
    match a
    case Work(i, choice) =>
    case Manage(choice) => assert ManagerStep(c, s, choice).control == s.control;
    case _ =>
  }

  ghost predicate NoControl(actions: seq<Action>) {
    forall a <- actions :: !a.Control?
  }

  lemma {:induction false} OthersLetPollThrough(c: Config, past: seq<Action>, others: seq<Action>)
    requires ValidateConfigBasic(c).Accepted? && Polling(After(c, past).control) && NoControl(others)
    ensures After(c, past + others).control == After(c, past).control
    decreases |others|
  {
    if others == [] {
      assert past + others == past;
    } else {
      var k := |others| - 1;
      OthersLetPollThrough(c, past, others[..k]);
      assert past + others == past + others[..k] + [others[k]];
      AfterStep(c, past + others[..k], others[k]);
      OthersLetPoll(c, After(c, past + others[..k]), others[k]);
    }
  }

  /** One poll, with the others moving between its two loads: running_tasks_ is read as it is at the
      first, pending_tasks_ at the second. Both zero end the wait; otherwise the time limit does, in
      forceStop, and short of it there is another poll. */
  lemma PollResult(c: Config, past: seq<Action>, others: seq<Action>, first: bool, limit: bool)
    requires ValidateConfigBasic(c).Accepted? && After(c, past).control == PollRunning && NoControl(others)
    ensures
      var running, pending := After(c, past).running, After(c, past + [Control(first)] + others).pending;
      After(c, past + [Control(first)] + others + [Control(limit)]).control
      == if running == 0 && pending == 0 then StopBalancer else if limit then Forcing else PollRunning
  {
    AfterStep(c, past, Control(first));
    PollStep(c, After(c, past), first);
    OthersLetPollThrough(c, past + [Control(first)], others);
    AfterStep(c, past + [Control(first)] + others, Control(limit));
    PollStep(c, After(c, past + [Control(first)] + others), limit);
  }

  // ----- what a shutdown ends in -----

  /** A poll that does not find both counters at zero, with the time limit passed. */
  predicate GivesUp(s: Pool, a: Action) {
    s.control.PollPending? && a == Control(true) && (s.control.running != 0 || s.pending != 0)
  }

  predicate FindsNothing(s: Pool, a: Action) {
    s.control == PollPending(0) && a.Control? && s.pending == 0
  }

  predicate ToForce(s: Pool) {
    s.control == Forcing || s.past.forced
  }

  predicate BeginsForced(s: Pool, a: Action) {
    a == Shutdown(Force) && s.control == Outside && Lifecycle.Rank(s.state) == 0
  }

  lemma StepForces(c: Config, s: Pool, a: Action)
    requires Shaped(c, s) && Lifecycle.Placed(s)
    ensures ToForce(Next(c, s, a)) <==> ToForce(s) || GivesUp(s, a) || BeginsForced(s, a)
  {
    match a
    case Control(choice) => ControlForces(c, s, choice);
    case Shutdown(option) => ShutdownForces(s, option);
    case _ => OthersForceNothing(c, s, a);
  }

  lemma ShutdownForces(s: Pool, option: ShutdownOption)
    ensures ToForce(ShutdownBegins(s, option)) <==> ToForce(s) || BeginsForced(s, Shutdown(option))
  {
  }

  lemma OthersForceNothing(c: Config, s: Pool, a: Action)
    requires Shaped(c, s) && !a.Control? && !a.Shutdown?
    ensures ToForce(Next(c, s, a)) <==> ToForce(s)
  {
    match a
    case Work(i, choice) =>
    case Manage(choice) =>
      var s' := ManagerStep(c, s, choice);
      assert s'.control == s.control && s'.past.forced == s.past.forced;
    case _ =>
  }

  lemma ControlForces(c: Config, s: Pool, choice: bool)
    requires Shaped(c, s) && Lifecycle.Placed(s)
    ensures ToForce(ControlStep(s, choice)) <==> ToForce(s) || GivesUp(s, Control(choice))
  {
  }

  lemma NextForces(c: Config, actions: seq<Action>, n: nat)
    requires ValidateConfigBasic(c).Accepted? && n < |actions|
    ensures
      var s := After(c, actions[..n]);
      ToForce(After(c, actions[..n + 1])) <==> ToForce(s) || GivesUp(s, actions[n]) || BeginsForced(s, actions[n])
  {
    AfterInv(c, actions[..n]);
    AfterPrefix(c, actions, n);
    StepForces(c, After(c, actions[..n]), actions[n]);
  }

  ghost predicate ForcedAt(c: Config, actions: seq<Action>, n: nat)
    requires ValidateConfigBasic(c).Accepted? && n < |actions|
  {
    var s := After(c, actions[..n]);
    GivesUp(s, actions[n]) || BeginsForced(s, actions[n])
  }

  /** In every run forceStop is entered if and only if shutdown(FORCE) passed the guard, or a
      waitForRunningTask ran out of time with one of the counters it had read not at zero. */
  lemma ForcedIff(c: Config, actions: seq<Action>)
    requires ValidateConfigBasic(c).Accepted?
    ensures ToForce(After(c, actions)) <==> exists n :: 0 <= n < |actions| && ForcedAt(c, actions, n)
  {
    if ToForce(After(c, actions)) {
      var n := Origins.Entered(c, actions, s => ToForce(s));
      NextForces(c, actions, n);
      assert ForcedAt(c, actions, n);
    }
    if n :| 0 <= n < |actions| && ForcedAt(c, actions, n) {
      NextForces(c, actions, n);
      StaysForced(c, actions, n + 1);
    }
  }

  lemma StaysForced(c: Config, actions: seq<Action>, n: nat)
    requires ValidateConfigBasic(c).Accepted? && n <= |actions| && ToForce(After(c, actions[..n]))
    ensures ToForce(After(c, actions))
  {
    var p := s => ToForce(s);
    forall m | n <= m < |actions| && p(After(c, actions[..m])) ensures p(After(c, actions[..m + 1])) {
      NextForces(c, actions, m);
    }
    Origins.Persists(c, actions, n, p);
  }

  // ----- shutdown(WAIT_FOR) once the limit has passed -----

  ghost predicate Unforced(s: Pool) {
    Shutdowns.Stopping(s.control) && !s.past.forced
  }

  lemma StepUnforced(c: Config, s: Pool, a: Action)
    requires Shaped(c, s) && Unforced(s)
    ensures Unforced(Next(c, s, a))
  {
    match a
    case Work(i, choice) =>
    case Manage(choice) =>
      var s' := ManagerStep(c, s, choice);
      assert s'.control == s.control && s'.past.forced == s.past.forced;
    case Control(choice) =>
    case _ =>
  }

  lemma {:induction false} UnforcedThrough(c: Config, s: Pool, actions: seq<Action>)
    requires Inv(c, s) && Unforced(s)
    ensures Unforced(Execute(c, s, actions))
    decreases |actions|
  {
    if actions != [] {
      NextInv(c, s, actions[0]);
      StepUnforced(c, s, actions[0]);
      UnforcedThrough(c, Next(c, s, actions[0]), actions[1..]);
    }
  }

  lemma {:induction false} ForcedThrough(c: Config, s: Pool, actions: seq<Action>)
    requires Inv(c, s) && ToForce(s)
    ensures ToForce(Execute(c, s, actions))
    decreases |actions|
  {
    if actions != [] {
      NextInv(c, s, actions[0]);
      StepForces(c, s, actions[0]);
      ForcedThrough(c, Next(c, s, actions[0]), actions[1..]);
    }
  }

  lemma LimitPassed(c: Config, s: Pool)
    requires Inv(c, s) && s.control.PollPending?
    ensures
      var s' := Next(c, s, Control(true));
      && Inv(c, s') && Measures.Ending(s') && Driving(s'.control) && Lifecycle.Rank(s'.state) >= 1
      && (if s.control.running != 0 || s.pending != 0 then ToForce(s') else Unforced(s'))
  {
    NextInv(c, s, Control(true));
    PollStep(c, s, true);
  }

  lemma LimitEnds(c: Config, s: Pool, actions: seq<Action>)
    requires Inv(c, s) && Measures.Ending(s) && Driving(s.control) && Lifecycle.Rank(s.state) >= 1
    ensures
      var s', account := Execute(c, s, actions), AccountOf(c, s, actions);
      && account.moves <= Measures.StepsLeft(c, s) + 6 * account.wakes
      && (s'.control == Returned || SomebodyMoves(c, s'))
  {
    StopReturns(c, s, actions);
  }

  /** When waitForRunningTask looks at its counters with the time limit passed, shutdown returns, in
      every interleaving: the threads make boundedly many steps from then on, and until it has
      returned one of them can move. It ends in forceStop if and only if one of the counters it
      looked at was not zero. */
  lemma LimitReturns(c: Config, past: seq<Action>, future: seq<Action>)
    requires ValidateConfigBasic(c).Accepted? && After(c, past).control.PollPending?
    ensures
      var s, start := After(c, past), After(c, past + [Control(true)]);
      var s' := After(c, past + [Control(true)] + future);
      && AccountOf(c, start, future).moves
         <= Measures.StepsLeft(c, start) + 6 * AccountOf(c, start, future).wakes
      && (s'.control == Returned || SomebodyMoves(c, s'))
      && (s'.control == Returned ==> (s'.past.forced <==> s.control.running != 0 || s.pending != 0))
  {
    LimitStarts(c, past);
    AfterExecute(c, past + [Control(true)], future);
    LimitEnds(c, After(c, past + [Control(true)]), future);
    ForcedAtReturn(c, After(c, past + [Control(true)]), future);
  }

  lemma LimitStarts(c: Config, past: seq<Action>)
    requires ValidateConfigBasic(c).Accepted? && After(c, past).control.PollPending?
    ensures
      var s, start := After(c, past), After(c, past + [Control(true)]);
      && Inv(c, start) && Measures.Ending(start) && Driving(start.control) && Lifecycle.Rank(start.state) >= 1
      && (if s.control.running != 0 || s.pending != 0 then ToForce(start) else Unforced(start))
  {
    AfterInv(c, past);
    AfterStep(c, past, Control(true));
    LimitPassed(c, After(c, past));
  }

  lemma ForcedAtReturn(c: Config, start: Pool, future: seq<Action>)
    requires Inv(c, start) && (ToForce(start) || Unforced(start))
    ensures
      var s' := Execute(c, start, future);
      s'.control == Returned ==> (s'.past.forced <==> ToForce(start))
  {
    if ToForce(start) {
      ForcedThrough(c, start, future);
    } else {
      UnforcedThrough(c, start, future);
    }
  }

  lemma AfterExecute(c: Config, past: seq<Action>, future: seq<Action>)
    requires ValidateConfigBasic(c).Accepted?
    ensures After(c, past + future) == Execute(c, After(c, past), future)
  {
    InitialInv(c);
    ExecuteAppend(c, Initial(c), past, future);
  }
}
