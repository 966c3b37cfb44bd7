/** The state of the pool only ever moves towards Stopped, and the controlling thread's
    position says how far it has come. */
module Lifecycle {
  import opened Configs
  import opened Pools
  import opened Steps

  function Rank(state: State): nat {
    match state
    case Running => 0
    case Paused => 0
    case ShuttingDown => 1
    case ForceShutting => 2
    case Stopped => 3
  }

  predicate Waiting(pc: ControlPc) {
    pc.WantWait? || pc.EvalWait? || pc.AsleepWait? || pc.PollRunning? || pc.PollPending? || pc.Forcing?
  }

  predicate Draining(pc: ControlPc) {
    pc.WantDrain? || pc.Drain? || pc.DrainDequeue? || pc.DrainGot? || pc.DrainUncount? || pc.DrainFail?
  }

  /** stop has set stopped_ and woken every worker. */
  predicate PastStop(pc: ControlPc) {
    pc.JoinBalancer? || BalancerJoined(pc)
  }

  ghost predicate Placed(s: Pool) {
    && (s.control.Outside? ==> Rank(s.state) == 0)
    && (Waiting(s.control) ==> s.state == ShuttingDown)
    && (Draining(s.control) ==> s.state == ForceShutting)
    && (s.control.Returned? <==> s.state == Stopped)
    && (s.stopped <==> PastStop(s.control))
    && (s.balancerExit <==> s.control.StopWorkers? || PastStop(s.control))
    && (s.balancer.AsleepPaused? ==> !s.balancerExit && s.state != Running)
    && s.past.shutdowns <= 1
    && (Rank(s.state) == 0 ==> s.past.shutdowns == 0)
  }

  lemma ControlPlaced(c: Config, s: Pool, choice: bool)
    requires Shaped(c, s) && Placed(s)
    ensures Placed(ControlStep(s, choice))
  {
  }

  lemma WorkerPlaced(s: Pool, i: nat, choice: bool)
    requires s.q.Valid() && i < |s.slots| && Placed(s)
    ensures Placed(WorkerStep(s, i, choice))
  {
  }

  lemma SubmitPlaced(s: Pool, t: Task, wake: nat)
    requires s.q.Valid() && Placed(s)
    ensures Placed(SubmitStep(s, t, wake))
  {
  }

  lemma ManagerPlaced(c: Config, s: Pool, choice: bool)
    requires Shaped(c, s) && Placed(s)
    ensures Placed(ManagerStep(c, s, choice))
  {
  }

  lemma OtherPlaced(c: Config, s: Pool, a: Action)
    requires Shaped(c, s) && Placed(s)
    requires !a.Work? && !a.ContinueSubmit? && !a.Manage? && !a.Control?
    ensures Placed(Next(c, s, a))
  {
  }

  /** No interleaving of pause, resume, shutdown, forceStop and stop goes back. */
  lemma RankNeverDrops(c: Config, s: Pool, a: Action)
    requires Shaped(c, s)
    ensures Rank(s.state) <= Rank(Next(c, s, a).state)
    ensures s.state == Stopped ==> Next(c, s, a).state == Stopped
  {
  }
}
