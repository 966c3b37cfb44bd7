/** Where the tasks are, and how the counters of the pool follow them. */
module Accounting {
  import opened Configs
  import opened BlockingQueues
  import opened Pools
  import opened Steps
  import opened Tallies
  import Lifecycle
  import opened SlotTable

  /** Submit calls that have pushed their task and not yet added it to pending_tasks_. */
  function Uncounting(submits: map<Task, SubmitPc>): set<Task> {
    set t | t in submits && submits[t] == Pushed
  }

  lemma QuietCounts(s: Pool)
    requires Quiet(s)
    ensures Uncounting(s.submits) == {}
  {
    forall t | t in Uncounting(s.submits) ensures t in s.submits && s.submits[t] == Done {
    }
  }

  /** Whoever only starts, wakes or joins workers moves no task. */
  lemma SameWorkSameTallies(slots: seq<Slot>, slots': seq<Slot>)
    requires |slots| == |slots'|
    requires forall i :: 0 <= i < |slots| ==> SameWork(slots[i], slots'[i])
    ensures forall k :: k != Willing && k != HasThread ==> Tally(slots', k) == Tally(slots, k)
  {
    forall k | k != Willing && k != HasThread ensures Tally(slots', k) == Tally(slots, k) {
      forall i | 0 <= i < |slots| ensures Hit(k, slots[i]) == Hit(k, slots'[i]) {
        assert SameWork(slots[i], slots'[i]);
      }
      TallySame(slots', slots, k, k);
    }
  }

  /** The conservation laws. The counter of pending tasks is taken as an integer: a worker
      may finish a task before its submit call counts it, so it can pass below zero. */
  ghost predicate Accounted(s: Pool) {
    && s.running == Tally(s.slots, CountedRunning)
    && s.active == Tally(s.slots, CountedActive)
    && s.pending + |Uncounting(s.submits)|
       == |s.q.ring.items| + Tally(s.slots, Owing) + s.q.ring.overrun
          + One(s.control.DrainGot? || s.control.DrainUncount?)
    && s.succeeded + Tally(s.slots, Unreported(true)) + s.past.failures == |s.past.executed|
    && s.failed + Tally(s.slots, Unreported(false)) + One(s.control.DrainUncount? || s.control.DrainFail?)
       == s.past.failures + |s.past.abandoned|
  }

  function Times(xs: seq<Task>, t: Task): nat {
    multiset(xs)[t]
  }

  lemma TimesSnoc(xs: seq<Task>, x: Task, t: Task)
    ensures Times(xs + [x], t) == Times(xs, t) + One(x == t)
  {
  }

  ghost predicate OwnedOk(s: Pool, t: Task) {
    Times(Taken(s.q.removed), t)
    == Tally(s.slots, Holding(t)) + One(s.control == DrainGot(t)) + Times(s.past.executed, t)
       + Times(s.past.abandoned, t)
  }

  /** Every task that left the queue through a dequeue is in one hand, executed or abandoned,
      as often as it was dequeued. */
  ghost predicate Owned(s: Pool) {
    Linear(s.q) && forall t :: OwnedOk(s, t)
  }

  /** No task is pushed twice. */
  ghost predicate Distinct(s: Pool) {
    && (forall i, j :: 0 <= i < j < |s.q.pushed| ==> s.q.pushed[i] != s.q.pushed[j])
    && (forall t <- s.q.pushed :: t in s.submits && !s.submits[t].Checked? && !s.submits[t].Chosen?)
  }

  // ----- workers -----

  lemma EdgeCounts(s: Pool, w: Slot, choice: bool, w': Slot)
    requires w'.pc == NextWorkerPc(s, w, choice) != w.pc
    ensures One(Hit(CountedRunning, w')) - One(Hit(CountedRunning, w)) == One(w.pc.Stamped?) - One(w.pc.Unrun?)
    ensures One(Hit(CountedActive, w')) - One(Hit(CountedActive, w)) == One(w.pc.Got?) - One(w.pc.Unactive?)
    ensures One(Hit(Owing, w')) - One(Hit(Owing, w)) == One(w.pc.Dequeuing?) - One(w.pc.Uncount?)
  {
  }

  lemma EdgeOutcomes(s: Pool, w: Slot, choice: bool, w': Slot, ok: bool)
    requires w'.pc == NextWorkerPc(s, w, choice) != w.pc
    ensures One(Hit(Unreported(ok), w')) - One(Hit(Unreported(ok), w))
            == One(w.pc.Executing? && w'.pc == Reporting(ok)) - One(w.pc == Reporting(ok))
    ensures w.pc.Executing? ==> w'.pc == Reporting(choice)
  {
  }

  lemma WorkerAccounted(c: Config, s: Pool, i: nat, choice: bool)
    requires Shaped(c, s) && Accounted(s) && i < |s.slots|
    ensures Accounted(WorkerStep(s, i, choice))
  {
    var w := s.slots[i];
    var pc := NextWorkerPc(s, w, choice);
    if pc != w.pc {
      var s' := WorkerMoves(s, i, pc);
      TallyUpdate(s.slots, i, s'.slots[i]);
      WorkerMovesCounts(s, s', i, choice);
      WorkerMovesOutcomes(s, s', i, choice);
    }
  }

  ghost predicate Moved(s: Pool, s': Pool, i: nat, choice: bool) {
    && s.q.Valid() && i < |s.slots|
    && NextWorkerPc(s, s.slots[i], choice) != s.slots[i].pc
    && s' == WorkerMoves(s, i, NextWorkerPc(s, s.slots[i], choice))
    && forall k :: Tally(s'.slots, k) == Tally(s.slots, k) - One(Hit(k, s.slots[i])) + One(Hit(k, s'.slots[i]))
  }

  lemma WorkerMovesCounts(s: Pool, s': Pool, i: nat, choice: bool)
    requires Accounted(s) && Moved(s, s', i, choice)
    ensures s'.running == Tally(s'.slots, CountedRunning) && s'.active == Tally(s'.slots, CountedActive)
    ensures s'.pending + |Uncounting(s'.submits)|
            == |s'.q.ring.items| + Tally(s'.slots, Owing) + s'.q.ring.overrun
               + One(s'.control.DrainGot? || s'.control.DrainUncount?)
  {
    EdgeCounts(s, s.slots[i], choice, s'.slots[i]);
  }

  lemma WorkerMovesOutcomes(s: Pool, s': Pool, i: nat, choice: bool)
    requires Accounted(s) && Moved(s, s', i, choice)
    ensures s'.succeeded + Tally(s'.slots, Unreported(true)) + s'.past.failures == |s'.past.executed|
    ensures s'.failed + Tally(s'.slots, Unreported(false)) + One(s'.control.DrainUncount? || s'.control.DrainFail?)
            == s'.past.failures + |s'.past.abandoned|
  {
    EdgeOutcomes(s, s.slots[i], choice, s'.slots[i], true);
    EdgeOutcomes(s, s.slots[i], choice, s'.slots[i], false);
  }

  /** A worker's hand changes by what it dequeues and what it executes. */
  lemma EdgeHolding(s: Pool, w: Slot, choice: bool, w': Slot, t: Task)
    requires w'.pc == NextWorkerPc(s, w, choice) != w.pc
    ensures One(Hit(Holding(t), w')) + One(w.pc == Executing(t))
            == One(Hit(Holding(t), w)) + One(w.pc.Dequeuing? && s.q.ring.items[0] == t)
    ensures w.pc.Dequeuing? ==> s.q.ring.items != []
  {
  }

  lemma WorkerOwned(c: Config, s: Pool, i: nat, choice: bool)
    requires Shaped(c, s) && Owned(s) && i < |s.slots|
    ensures Owned(WorkerStep(s, i, choice))
  {
    var w := s.slots[i];
    var pc := NextWorkerPc(s, w, choice);
    if pc != w.pc {
      var s' := WorkerMoves(s, i, pc);
      assert Linear(s'.q) by {
        EdgeHolding(s, w, choice, s'.slots[i], 0);
        DequeueLinear(s.q);
      }
      forall t ensures OwnedOk(s', t) {
        EdgeHolding(s, w, choice, s'.slots[i], t);
        assert OwnedOk(s, t);
        WorkerMovesOwned(s, s', i, t);
      }
    }
  }

  lemma WorkerMovesOwned(s: Pool, s': Pool, i: nat, t: Task)
    requires s.q.Valid() && i < |s.slots| && OwnedOk(s, t)
    requires |s'.slots| == |s.slots| && s'.slots == s.slots[i := s'.slots[i]]
    requires s.slots[i].pc.Dequeuing? ==> s.q.ring.items != []
    requires s'.q == if s.slots[i].pc.Dequeuing? then s.q.Dequeue() else s.q
    requires s'.control == DrainGot(t) <==> s.control == DrainGot(t)
    requires s'.past.abandoned == s.past.abandoned
    requires s'.past.executed
             == if s.slots[i].pc.Executing? then s.past.executed + [s.slots[i].pc.t] else s.past.executed
    requires One(Hit(Holding(t), s'.slots[i])) + One(s.slots[i].pc == Executing(t))
             == One(Hit(Holding(t), s.slots[i])) + One(s.slots[i].pc.Dequeuing? && s.q.ring.items[0] == t)
    ensures OwnedOk(s', t)
  {
    TallyUpdate(s.slots, i, s'.slots[i]);
    if s.slots[i].pc.Dequeuing? {
      TakeOne(s.q, t);
    } else if s.slots[i].pc.Executing? {
      TimesSnoc(s.past.executed, s.slots[i].pc.t, t);
    }
  }

  lemma TakeOne(q: Queue<Task>, t: Task)
    requires q.Valid() && q.ring.items != []
    ensures Times(Taken(q.Dequeue().removed), t) == Times(Taken(q.removed), t) + One(q.ring.items[0] == t)
  {
    ElemsSnoc(q.removed, Dequeued(q.ring.items[0]));
    TimesSnoc(Taken(q.removed), q.ring.items[0], t);
  }

  lemma WorkerDistinct(s: Pool, i: nat, choice: bool)
    requires s.q.Valid() && i < |s.slots| && Distinct(s)
    ensures Distinct(WorkerStep(s, i, choice))
  {
  }

  // ----- submitters -----

  lemma UncountingUpdate(submits: map<Task, SubmitPc>, t: Task, pc: SubmitPc)
    requires t in submits && submits[t] != pc
    ensures |Uncounting(submits[t := pc])|
            == |Uncounting(submits)| + One(pc == Pushed) - One(submits[t] == Pushed)
  {
    var before, after := Uncounting(submits), Uncounting(submits[t := pc]);
    if pc == Pushed {
      assert after == before + {t};
    } else {
      assert after == before - {t};
    }
  }

  lemma WakeSameWork(s: Pool, t: Task, wake: nat)
    requires s.q.Valid()
    ensures |SubmitStep(s, t, wake).slots| == |s.slots|
    ensures forall j :: 0 <= j < |s.slots| ==> SameWork(s.slots[j], SubmitStep(s, t, wake).slots[j])
  {
  }

  lemma SubmitAccounted(c: Config, s: Pool, t: Task, wake: nat)
    requires Usable(c) && Shaped(c, s) && Accounted(s)
    ensures Accounted(SubmitStep(s, t, wake))
  {
    if t in s.submits {
      var pc := NextSubmitPc(s, s.submits[t], wake);
      if pc != s.submits[t] {
        UncountingUpdate(s.submits, t, pc);
        WakeSameWork(s, t, wake);
        SameWorkSameTallies(s.slots, SubmitStep(s, t, wake).slots);
      }
    }
  }

  lemma SubmitOwned(c: Config, s: Pool, t: Task, wake: nat)
    requires Usable(c) && Shaped(c, s) && Owned(s)
    ensures Owned(SubmitStep(s, t, wake))
  {
    var s' := SubmitStep(s, t, wake);
    WakeSameWork(s, t, wake);
    SameWorkSameTallies(s.slots, s'.slots);
    PushTakesNothing(s.q, t);
    assert s'.q == s.q || s'.q == s.q.EnqueueNoWait(t) || s'.q == s.q.EnqueueIfNotFull(t);
    SameOwned(s, s');
  }

  lemma SameOwned(s: Pool, s': Pool)
    requires Owned(s) && Linear(s'.q) && Taken(s'.q.removed) == Taken(s.q.removed)
    requires forall t :: Tally(s'.slots, Holding(t)) == Tally(s.slots, Holding(t))
    requires s'.control == s.control || (!s.control.DrainGot? && !s'.control.DrainGot?)
    requires s'.past.executed == s.past.executed && s'.past.abandoned == s.past.abandoned
    ensures Owned(s')
  {
    forall t ensures OwnedOk(s', t) {
      assert OwnedOk(s, t);
    }
  }

  lemma PushTakesNothing(q: Queue<Task>, t: Task)
    requires q.Valid() && q.ring.capacity > 0 && Linear(q)
    ensures Linear(q.EnqueueNoWait(t)) && Taken(q.EnqueueNoWait(t).removed) == Taken(q.removed)
    ensures Linear(q.EnqueueIfNotFull(t)) && Taken(q.EnqueueIfNotFull(t).removed) == Taken(q.removed)
  {
    EnqueueLinear(q, t);
    if q.ring.Full() {
      ElemsSnoc(q.removed, Overwritten(q.ring.items[0]));
    }
  }

  lemma SubmitDistinct(c: Config, s: Pool, t: Task, wake: nat)
    requires Shaped(c, s) && Distinct(s)
    ensures Distinct(SubmitStep(s, t, wake))
  {
  }

  // ----- the manager, the controlling thread and the others -----

  lemma ManagerSameTallies(c: Config, s: Pool, choice: bool)
    requires Table(c, s)
    ensures forall k :: k != Willing && k != HasThread ==>
                          Tally(ManagerStep(c, s, choice).slots, k) == Tally(s.slots, k)
  {
    var pc := NextManagerPc(c, s, choice);
    if pc != s.manager {
      var slots' := ManagedSlots(s, pc, choice);
      forall j | 0 <= j < |s.slots| ensures SameWork(s.slots[j], slots'[j]) {
        ManagerSameWork(c, s, choice, j);
      }
      SameWorkSameTallies(s.slots, slots');
    }
  }

  lemma ManagerAccounted(c: Config, s: Pool, choice: bool)
    requires Table(c, s) && Accounted(s)
    ensures Accounted(ManagerStep(c, s, choice))
  {
    ManagerSameTallies(c, s, choice);
  }

  lemma ManagerOwned(c: Config, s: Pool, choice: bool)
    requires Table(c, s) && Owned(s)
    ensures Owned(ManagerStep(c, s, choice))
  {
    ManagerSameTallies(c, s, choice);
    SameOwned(s, ManagerStep(c, s, choice));
  }

  lemma ManagerDistinct(c: Config, s: Pool, choice: bool)
    requires Shaped(c, s) && Distinct(s)
    ensures Distinct(ManagerStep(c, s, choice))
  {
  }

  lemma ControlSameTallies(c: Config, s: Pool, choice: bool)
    requires Shaped(c, s)
    ensures forall k :: k != Willing && k != HasThread ==>
                          Tally(ControlStep(s, choice).slots, k) == Tally(s.slots, k)
  {
    var slots' := ControlStep(s, choice).slots;
    forall j | 0 <= j < |s.slots| ensures SameWork(s.slots[j], slots'[j]) {
    }
    SameWorkSameTallies(s.slots, slots');
  }

  lemma ControlEdge(s: Pool, choice: bool)
    requires s.size <= |s.slots|
    ensures
      var from, to := s.control, NextControlPc(s, choice);
      to != from ==>
        && One(to.DrainGot? || to.DrainUncount?) - One(from.DrainGot? || from.DrainUncount?)
           == One(from.DrainDequeue?) - One(from.DrainUncount?)
        && One(to.DrainUncount? || to.DrainFail?) - One(from.DrainUncount? || from.DrainFail?)
           == One(from.DrainGot?) - One(from.DrainFail?)
        && (from.DrainDequeue? ==> s.q.ring.items != [])
  {
  }

  lemma ControlAccounted(c: Config, s: Pool, choice: bool)
    requires Shaped(c, s) && Accounted(s)
    ensures Accounted(ControlStep(s, choice))
  {
    ControlEdge(s, choice);
    ControlSameTallies(c, s, choice);
  }

  lemma ControlOwned(c: Config, s: Pool, choice: bool)
    requires Shaped(c, s) && Owned(s)
    ensures Owned(ControlStep(s, choice))
  {
    if s.control.DrainDequeue? {
      ControlTakesOwned(s, choice);
    } else if s.control.DrainGot? {
      ControlSettlesOwned(s, choice);
    } else {
      ControlElseOwned(c, s, choice);
    }
  }

  lemma ControlTakesOwned(s: Pool, choice: bool)
    requires s.q.Valid() && s.size <= |s.slots| && Owned(s) && s.control.DrainDequeue?
    ensures Owned(ControlStep(s, choice))
  {
    if s.q.ring.items != [] {
      DrainTakes(s, ControlStep(s, choice));
    }
  }

  lemma ControlSettlesOwned(s: Pool, choice: bool)
    requires s.q.Valid() && s.size <= |s.slots| && Owned(s) && s.control.DrainGot?
    ensures Owned(ControlStep(s, choice))
  {
    DrainSettles(s, ControlStep(s, choice));
  }

  lemma ControlElseOwned(c: Config, s: Pool, choice: bool)
    requires Shaped(c, s) && Owned(s) && !s.control.DrainDequeue? && !s.control.DrainGot?
    ensures Owned(ControlStep(s, choice))
  {
    ControlSameTallies(c, s, choice);
    ControlKeepsTasks(c, s, choice);
    SameOwned(s, ControlStep(s, choice));
  }

  lemma ControlKeepsTasks(c: Config, s: Pool, choice: bool)
    requires Shaped(c, s) && !s.control.DrainDequeue? && !s.control.DrainGot?
    ensures
      var s' := ControlStep(s, choice);
      s'.q == s.q && s'.past.executed == s.past.executed && s'.past.abandoned == s.past.abandoned
      && !s'.control.DrainGot?
  {
  }

  lemma DrainTakes(s: Pool, s': Pool)
    requires s.q.Valid() && Owned(s) && s.q.ring.items != [] && s'.q == s.q.Dequeue()
    requires s'.slots == s.slots && s'.past == s.past
    requires s.control == DrainDequeue && s'.control == DrainGot(s.q.ring.items[0])
    ensures Owned(s')
  {
    DequeueLinear(s.q);
    forall t ensures OwnedOk(s', t) {
      assert OwnedOk(s, t);
      TakeOne(s.q, t);
    }
  }

  lemma DrainSettles(s: Pool, s': Pool)
    requires Owned(s) && s'.q == s.q && s'.slots == s.slots
    requires s.control.DrainGot? && s'.control == DrainUncount
    requires s'.past == s.past.(abandoned := s.past.abandoned + [s.control.t])
    ensures Owned(s')
  {
    forall t ensures OwnedOk(s', t) {
      assert OwnedOk(s, t);
      TimesSnoc(s.past.abandoned, s.control.t, t);
    }
  }

  lemma ControlDistinct(c: Config, s: Pool, choice: bool)
    requires Shaped(c, s) && Distinct(s)
    ensures Distinct(ControlStep(s, choice))
  {
  }

  lemma OtherAccounted(s: Pool, s': Pool)
    requires Accounted(s)
    requires s'.slots == s.slots && s'.q == s.q && Uncounting(s'.submits) == Uncounting(s.submits)
    requires s'.running == s.running && s'.active == s.active && s'.pending == s.pending
    requires s'.succeeded == s.succeeded && s'.failed == s.failed
    requires s'.past.executed == s.past.executed && s'.past.abandoned == s.past.abandoned
    requires s'.past.failures == s.past.failures
    requires s'.control == s.control || (!Lifecycle.Draining(s.control) && !Lifecycle.Draining(s'.control))
    ensures Accounted(s')
  {
  }

  lemma OtherDistinct(s: Pool, s': Pool)
    requires Distinct(s) && s'.q == s.q
    requires forall t <- s.submits :: t in s'.submits && s'.submits[t] == s.submits[t]
    ensures Distinct(s')
  {
  }
}
