/** How many tasks a paused pool still starts. */
module Pausing {
  import opened Configs
  import opened Pools
  import opened Steps
  import opened Tallies
  import SlotTable
  import opened Runs

  /** Past the pause check, on the way to taking a task. */
  predicate PastPauseCheck(pc: WorkerPc, stopped: bool) {
    (pc.PauseOver? && !stopped) || pc.WantLock? || pc.Looking? || pc.SawEmpty? || pc.Asleep?
    || pc.Checking? || pc.Taking? || pc.Dequeuing?
  }

  /** Tasks that worker i can still take before it meets the pause check. */
  function Credit(s: Pool, i: nat): nat {
    One(i < |s.slots| && PastPauseCheck(s.slots[i].pc, s.stopped))
  }

  predicate Takes(s: Pool, a: Action, i: nat) {
    a.Work? && a.i == i && i < |s.slots| && s.slots[i].pc == Dequeuing && s.q.ring.items != []
  }

  lemma EdgeCredit(s: Pool, w: Slot, choice: bool)
    requires s.state == Paused && NextWorkerPc(s, w, choice) != w.pc
    ensures One(PastPauseCheck(NextWorkerPc(s, w, choice), s.stopped)) + One(w.pc.Dequeuing?)
            <= One(PastPauseCheck(w.pc, s.stopped))
  {
  }

  lemma WorkCredit(s: Pool, j: nat, choice: bool, i: nat)
    requires s.q.Valid() && j < |s.slots| && s.state == Paused
    ensures Credit(WorkerStep(s, j, choice), i) + One(Takes(s, Work(j, choice), i)) <= Credit(s, i)
  {
    if NextWorkerPc(s, s.slots[j], choice) != s.slots[j].pc {
      EdgeCredit(s, s.slots[j], choice);
    }
  }

  lemma SubmitCredit(s: Pool, t: Task, wake: nat, i: nat)
    requires s.q.Valid()
    ensures Credit(SubmitStep(s, t, wake), i) <= Credit(s, i)
  {
  }

  lemma ManageCredit(c: Config, s: Pool, choice: bool, i: nat)
    requires SlotTable.Table(c, s)
    ensures Credit(ManagerStep(c, s, choice), i) <= Credit(s, i)
  {
    var pc := NextManagerPc(c, s, choice);
    if pc != s.manager && i < |s.slots| {
      SlotTable.ManagerSameWork(c, s, choice, i);
    }
  }

  lemma ControlCredit(c: Config, s: Pool, choice: bool, i: nat)
    requires Shaped(c, s)
    ensures Credit(ControlStep(s, choice), i) <= Credit(s, i)
  {
  }

  /** A worker takes a task at most once per pass of the pause check, and nobody gets past the
      check of a paused pool. */
  lemma StepCredit(c: Config, s: Pool, a: Action, i: nat)
    requires SlotTable.Table(c, s) && s.state == Paused
    ensures Credit(Next(c, s, a), i) + One(Takes(s, a, i)) <= Credit(s, i)
  {
    match a
    case Work(j, choice) => if j < |s.slots| { WorkCredit(s, j, choice, i); }
    case ContinueSubmit(t, wake) => SubmitCredit(s, t, wake, i);
    case Manage(choice) => ManageCredit(c, s, choice, i);
    case Control(choice) => ControlCredit(c, s, choice, i);
    case _ =>
  }

  /** How many tasks worker i takes during `future`. */
  ghost function TasksTaken(c: Config, past: seq<Action>, future: seq<Action>, i: nat): nat
    requires ValidateConfigBasic(c).Accepted?
    decreases |future|
  {
    if future == [] then 0
    else
      var k := |future| - 1;
      TasksTaken(c, past, future[..k], i) + One(Takes(After(c, past + future[..k]), future[k], i))
  }

  ghost predicate PausedThroughout(c: Config, past: seq<Action>, future: seq<Action>)
    requires ValidateConfigBasic(c).Accepted?
  {
    forall n :: 0 <= n < |future| ==> After(c, past + future[..n]).state == Paused
  }

  /** The bound on one uninterrupted pause, for every worker: one task if the worker was past
      the pause check when the pause began, none if the check was still before it, as it is
      for a worker created later. */
  lemma {:induction false} PauseBound(c: Config, past: seq<Action>, future: seq<Action>, i: nat)
    requires ValidateConfigBasic(c).Accepted? && PausedThroughout(c, past, future)
    ensures TasksTaken(c, past, future, i) + Credit(After(c, past + future), i) <= Credit(After(c, past), i) <= 1
    decreases |future|
  {
    if future == [] {
      assert past + future == past;
    } else {
      var k := |future| - 1;
      PausedBefore(c, past, future, k);
      PauseBound(c, past, future[..k], i);
      LastCredit(c, past, future, k, i);
    }
  }

  lemma PausedBefore(c: Config, past: seq<Action>, future: seq<Action>, k: nat)
    requires ValidateConfigBasic(c).Accepted? && PausedThroughout(c, past, future) && k < |future|
    ensures PausedThroughout(c, past, future[..k]) && After(c, past + future[..k]).state == Paused
  {
    forall n | 0 <= n < k ensures After(c, past + future[..k][..n]).state == Paused {
      assert future[..k][..n] == future[..n];
    }
  }

  lemma LastCredit(c: Config, past: seq<Action>, future: seq<Action>, k: nat, i: nat)
    requires ValidateConfigBasic(c).Accepted? && k + 1 == |future|
    requires After(c, past + future[..k]).state == Paused
    ensures
      var s := After(c, past + future[..k]);
      Credit(After(c, past + future), i) + One(Takes(s, future[k], i)) <= Credit(s, i)
  {
    AfterInv(c, past + future[..k]);
    assert (past + future[..k]) + [future[k]] == past + future;
    AfterStep(c, past + future[..k], future[k]);
    StepCredit(c, After(c, past + future[..k]), future[k], i);
  }
}
