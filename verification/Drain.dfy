/** The loop of forceStop that empties the queue, and what can still get into it. */
module DrainLoop {
  import opened Configs
  import opened Pools
  import opened Steps
  import Tallies
  import Lifecycle
  import Locking

  /** Submit calls that may still push their task. */
  function Undecided(submits: map<Task, SubmitPc>): set<Task> {
    set t | t in submits && (submits[t] == Checked || submits[t].Chosen?)
  }

  /** Tasks in the queue, and submit calls that may still put one there. */
  function Drainable(s: Pool): nat {
    |s.q.ring.items| + |Undecided(s.submits)|
  }

  lemma UndecidedUpdate(submits: map<Task, SubmitPc>, t: Task, pc: SubmitPc)
    requires t in submits && (submits[t] == Checked || submits[t].Chosen?) && pc != Checked
    ensures |Undecided(submits[t := pc])| == |Undecided(submits)| - Tallies.One(!pc.Chosen?)
  {
    var before, after := Undecided(submits), Undecided(submits[t := pc]);
    assert t in before;
    assert after == if pc.Chosen? then before else before - {t};
  }

  lemma DecidedAlready(submits: map<Task, SubmitPc>, t: Task, pc: SubmitPc)
    requires t in submits && (submits[t] == Pushed || submits[t] == Counted) && (pc == Counted || pc == Done)
    ensures Undecided(submits[t := pc]) == Undecided(submits)
  {
  }

  lemma SubmitKeepsDrainable(s: Pool, t: Task, wake: nat)
    requires s.q.Valid()
    ensures Drainable(SubmitStep(s, t, wake)) <= Drainable(s)
  {
    if t in s.submits {
      var pc := NextSubmitPc(s, s.submits[t], wake);
      if s.submits[t] == Checked || s.submits[t].Chosen? {
        UndecidedUpdate(s.submits, t, pc);
      } else if pc != s.submits[t] {
        DecidedAlready(s.submits, t, pc);
      }
    }
  }

  lemma WorkKeepsDrainable(s: Pool, i: nat, choice: bool)
    requires s.q.Valid() && i < |s.slots|
    ensures Drainable(WorkerStep(s, i, choice)) <= Drainable(s)
  {
  }

  lemma OthersKeepDrainable(c: Config, s: Pool, a: Action)
    requires Shaped(c, s) && Lifecycle.Rank(s.state) >= 1 && !a.Work? && !a.ContinueSubmit? && !a.Control?
    ensures Drainable(Next(c, s, a)) == Drainable(s)
  {
  }

  lemma ControlDrains(s: Pool, choice: bool)
    requires s.q.Valid() && s.size <= |s.slots| && Locking.Locked(s)
    ensures Drainable(ControlStep(s, choice)) == Drainable(s) - Tallies.One(s.control == DrainDequeue)
  {
  }

  /** Once the pool takes no more tasks nothing refills the queue for good: whatever blocked
      submitters do, each round of the drain brings it closer to its end. */
  lemma DrainShrinks(c: Config, s: Pool, a: Action)
    requires Shaped(c, s) && Locking.Locked(s) && Lifecycle.Rank(s.state) >= 1
    ensures Drainable(Next(c, s, a)) <= Drainable(s)
    ensures s.control == DrainDequeue && a.Control? ==> Drainable(Next(c, s, a)) < Drainable(s)
  {
    match a
    case Work(i, choice) => if i < |s.slots| { WorkKeepsDrainable(s, i, choice); }
    case ContinueSubmit(t, wake) => SubmitKeepsDrainable(s, t, wake);
    case Control(choice) => ControlDrains(s, choice);
    case _ => OthersKeepDrainable(c, s, a);
  }

  /** Tasks abandoned so far, in the drain's hand, or still to come. */
  function DrainBudget(s: Pool): nat {
    |s.past.abandoned| + Tallies.One(s.control.DrainGot?) + Drainable(s)
  }

  lemma ControlAbandons(s: Pool, choice: bool)
    requires s.q.Valid() && s.size <= |s.slots| && Locking.Locked(s)
    ensures
      var s' := ControlStep(s, choice);
      |s'.past.abandoned| + Tallies.One(s'.control.DrainGot?)
      == |s.past.abandoned| + Tallies.One(s.control.DrainGot?) + Tallies.One(s.control == DrainDequeue)
  {
  }

  lemma WorkAbandonsNothing(s: Pool, i: nat, choice: bool)
    requires s.q.Valid() && i < |s.slots|
    ensures
      var s' := WorkerStep(s, i, choice);
      s'.past.abandoned == s.past.abandoned && s'.control.DrainGot? == s.control.DrainGot?
  {
  }

  lemma OthersAbandonNothing(c: Config, s: Pool, a: Action)
    requires Shaped(c, s) && Lifecycle.Rank(s.state) >= 1 && !a.Work? && !a.Control?
    ensures
      var s' := Next(c, s, a);
      s'.past.abandoned == s.past.abandoned && s'.control.DrainGot? == s.control.DrainGot?
  {
  }

  lemma BudgetNeverGrows(c: Config, s: Pool, a: Action)
    requires Shaped(c, s) && Locking.Locked(s) && Lifecycle.Rank(s.state) >= 1
    ensures DrainBudget(Next(c, s, a)) <= DrainBudget(s)
  {
    DrainShrinks(c, s, a);
    match a
    case Work(i, choice) => if i < |s.slots| { WorkAbandonsNothing(s, i, choice); }
    case Control(choice) => ControlDrains(s, choice); ControlAbandons(s, choice);
    case _ => OthersAbandonNothing(c, s, a);
  }
}
