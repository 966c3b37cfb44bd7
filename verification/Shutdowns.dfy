/** What has become of every task once shutdown returns. */
module Shutdowns {
  import opened Configs
  import opened Pools
  import opened Steps
  import opened Tallies
  import opened Lifecycle
  import SlotTable
  import Locking
  import Accounting

  /** Inside stop, or done with it. */
  predicate Stopping(pc: ControlPc) {
    pc.StopBalancer? || pc.StopWorkers? || PastStop(pc)
  }

  predicate WaitingForAll(pc: ControlPc) {
    pc.WantWait? || pc.EvalWait? || pc.AsleepWait?
  }

  ghost predicate OptionOk(s: Pool) {
    && (WaitingForAll(s.control) ==> s.past.option == WaitAll)
    && (Waiting(s.control) && !WaitingForAll(s.control) ==> s.past.option != WaitAll)
    && (Waiting(s.control) || Draining(s.control) ==> s.past.shutdowns == 1)
    && (s.past.forced ==> s.past.option != WaitAll && s.past.shutdowns == 1)
    && (s.past.forced ==> Draining(s.control) || Stopping(s.control))
    && (s.state == ForceShutting ==> s.past.forced)
    && (Draining(s.control) ==> s.past.forced)
    && (!s.past.forced || s.control == WantDrain ==> s.past.abandoned == [])
  }

  /** No submit call was in flight when shutdown left the running or paused state. */
  ghost predicate QuietShutdown(s: Pool) {
    s.past.shutdowns == 1 && s.past.quiet
  }

  function DrainSeq(pc: ControlPc): seq<Task> {
    if pc.DrainGot? then [pc.t] else []
  }

  ghost predicate Settling(s: Pool) {
    && OptionOk(s)
    && (QuietShutdown(s) ==> Quiet(s))
    && (QuietShutdown(s) && Stopping(s.control) ==> s.q.ring.items == [])
    && (QuietShutdown(s) && Stopping(s.control) && !s.past.forced ==>
          Tally(s.slots, Owing) == 0 && s.q.ring.overrun == 0)
    && (QuietShutdown(s) && s.past.forced && s.control != WantDrain ==>
          s.past.abandoned + DrainSeq(s.control) + s.q.ring.items == s.past.atDrain)
  }

  lemma WorkerSettling(c: Config, s: Pool, i: nat, choice: bool)
    requires Shaped(c, s) && Locking.Locked(s) && Settling(s) && i < |s.slots|
    ensures Settling(WorkerStep(s, i, choice))
  {
    var w := s.slots[i];
    var pc := NextWorkerPc(s, w, choice);
    if pc != w.pc {
      var s' := WorkerMoves(s, i, pc);
      Accounting.EdgeCounts(s, w, choice, s'.slots[i]);
      TallyUpdate(s.slots, i, s'.slots[i]);
      assert Locking.LockOk(s, i);
      WorkerMovesSettling(s, s', i, pc);
    }
  }

  lemma WorkerMovesSettling(s: Pool, s': Pool, i: nat, pc: WorkerPc)
    requires s.q.Valid() && i < |s.slots| && Settling(s) && s' == WorkerMoves(s, i, pc)
    requires Tally(s'.slots, Owing) <= Tally(s.slots, Owing) + One(s.slots[i].pc.Dequeuing?)
    requires s.slots[i].pc.Dequeuing? ==> s.q.ring.items != [] && !ControlHolds(s.control)
    ensures Settling(s')
  {
  }

  lemma SubmitSettling(c: Config, s: Pool, t: Task, wake: nat)
    requires Shaped(c, s) && Settling(s)
    ensures Settling(SubmitStep(s, t, wake))
  {
  }

  lemma ManagerSettling(c: Config, s: Pool, choice: bool)
    requires SlotTable.Table(c, s) && Settling(s)
    ensures Settling(ManagerStep(c, s, choice))
  {
    Accounting.ManagerSameTallies(c, s, choice);
  }

  lemma ControlSettling(c: Config, s: Pool, choice: bool)
    requires Shaped(c, s) && Placed(s) && Accounting.Accounted(s) && Settling(s)
    ensures Settling(ControlStep(s, choice))
  {
    var pc := NextControlPc(s, choice);
    if pc != s.control {
      Accounting.ControlSameTallies(c, s, choice);
      if QuietShutdown(s) {
        Accounting.QuietCounts(s);
      }
      ControlMovesSettling(s, ControlMoves(s, pc), choice);
    }
  }

  lemma ControlMovesSettling(s: Pool, s': Pool, choice: bool)
    requires s.q.Valid() && s.size <= |s.slots| && Placed(s) && Settling(s)
    requires NextControlPc(s, choice) != s.control && s' == ControlMoves(s, NextControlPc(s, choice))
    requires Tally(s'.slots, Owing) == Tally(s.slots, Owing)
    requires Waiting(s.control) && QuietShutdown(s) ==>
               s.pending == |s.q.ring.items| + Tally(s.slots, Owing) + s.q.ring.overrun
    ensures Settling(s')
  {
    ControlMovesOption(s, s', choice);
  }

  lemma ControlMovesOption(s: Pool, s': Pool, choice: bool)
    requires s.q.Valid() && s.size <= |s.slots| && Placed(s) && OptionOk(s)
    requires NextControlPc(s, choice) != s.control && s' == ControlMoves(s, NextControlPc(s, choice))
    ensures OptionOk(s')
  {
  }

  lemma OtherSettling(c: Config, s: Pool, a: Action)
    requires Shaped(c, s) && Placed(s) && Settling(s)
    requires Aside(a)
    ensures Settling(Next(c, s, a))
  {
    if a.Shutdown? || a.StopPool? {
      BeginningSettling(s, Next(c, s, a), a);
    } else {
      SameSettling(s, Next(c, s, a));
    }
  }

  lemma SameSettling(s: Pool, s': Pool)
    requires Settling(s)
    requires s'.control == s.control && s'.past == s.past && s'.submits == s.submits && s'.q == s.q
    requires s'.slots == s.slots && (s'.state == ForceShutting ==> s.state == ForceShutting)
    ensures Settling(s')
  {
  }

  lemma BeginningSettling(s: Pool, s': Pool, a: Action)
    requires Placed(s) && Settling(s)
    requires (a.Shutdown? && s' == ShutdownBegins(s, a.option)) || s' == StopBegins(s)
    ensures Settling(s')
  {
  }
}
