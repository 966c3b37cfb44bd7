/** No lost wake-up on queue_cv_. Tasks are pushed without queue_mutex_, so a worker that has
    seen an empty queue may fall asleep on a queue that is empty no more; what saves it is
    that the submitter still has to notify, and can do so only once the worker sleeps. */
module Waking {
  import opened Configs
  import opened Pools
  import opened Steps
  import opened Tallies
  import Lifecycle
  import SlotTable
  import Locking

  /** Submit calls that have pushed their task and not yet notified. */
  function Unannounced(submits: map<Task, SubmitPc>): set<Task> {
    set t | t in submits && (submits[t] == Pushed || submits[t] == Counted)
  }

  ghost predicate WakeOk(s: Pool, i: nat)
    requires i < |s.slots|
  {
    && (s.slots[i].pc == SawEmpty ==> !s.stopped && |s.q.ring.items| <= |Unannounced(s.submits)|)
    && (s.slots[i].pc == Asleep ==> !s.stopped)
    && (s.slots[i].pc == Asleep && s.state != ForceShutting ==>
          |s.q.ring.items| <= |Unannounced(s.submits)| + Tally(s.slots, Willing))
  }

  /** While some worker sleeps, every queued task has a submitter about to notify or a worker
      about to look. A forced shutdown is excepted: it empties the queue itself. */
  ghost predicate Awake(s: Pool) {
    forall i :: 0 <= i < |s.slots| ==> WakeOk(s, i)
  }

  // ----- workers -----

  lemma EdgeWilling(s: Pool, w: Slot, choice: bool, w': Slot)
    requires w'.pc == NextWorkerPc(s, w, choice) != w.pc && w'.exitFlag == w.exitFlag
    ensures w'.pc != Asleep && !s.stopped && s.state != ForceShutting ==>
              One(Hit(Willing, w')) >= One(Hit(Willing, w))
    ensures w'.pc == SawEmpty ==> !s.stopped && s.q.ring.items == []
    ensures w'.pc == Asleep ==> w.pc == SawEmpty
  {
  }

  lemma WorkerAwake(c: Config, s: Pool, i: nat, choice: bool)
    requires Shaped(c, s) && Locking.Locked(s) && Awake(s) && i < |s.slots|
    ensures Awake(WorkerStep(s, i, choice))
  {
    var w := s.slots[i];
    var pc := NextWorkerPc(s, w, choice);
    if pc != w.pc {
      var s' := WorkerMoves(s, i, pc);
      EdgeWilling(s, w, choice, s'.slots[i]);
      TallyUpdate(s.slots, i, s'.slots[i]);
      forall j | 0 <= j < |s'.slots| ensures WakeOk(s', j) {
        WorkerMovesAwake(s, s', i, pc, j);
      }
    }
  }

  lemma WorkerMovesAwake(s: Pool, s': Pool, i: nat, pc: WorkerPc, j: nat)
    requires s.q.Valid() && Awake(s) && i < |s.slots| && j < |s.slots| && s' == WorkerMoves(s, i, pc)
    requires s'.slots[i].pc != Asleep && !s.stopped && s.state != ForceShutting ==>
               Tally(s'.slots, Willing) >= Tally(s.slots, Willing)
    requires Tally(s'.slots, Willing) >= Tally(s.slots, Willing) - 1
    requires pc == SawEmpty ==> !s.stopped && s.q.ring.items == []
    requires pc == Asleep ==> s.slots[i].pc == SawEmpty
    ensures WakeOk(s', j)
  {
    assert WakeOk(s, i) && WakeOk(s, j);
  }

  // ----- submitters -----

  lemma UnannouncedUpdate(submits: map<Task, SubmitPc>, t: Task, pc: SubmitPc)
    requires t in submits
    ensures |Unannounced(submits[t := pc])|
            == |Unannounced(submits)| + One(pc == Pushed || pc == Counted)
               - One(submits[t] == Pushed || submits[t] == Counted)
  {
    var before, after := Unannounced(submits), Unannounced(submits[t := pc]);
    if pc == Pushed || pc == Counted {
      assert after == before + {t};
      assert t in before ==> after == before;
    } else {
      assert after == before - {t};
    }
  }

  lemma SubmitAwake(c: Config, s: Pool, t: Task, wake: nat)
    requires Usable(c) && SlotTable.Table(c, s) && Locking.Locked(s) && Awake(s)
    ensures Awake(SubmitStep(s, t, wake))
  {
    if t in s.submits {
      var pc := NextSubmitPc(s, s.submits[t], wake);
      if pc != s.submits[t] {
        var s' := SubmitMoves(s, t, pc, wake);
        UnannouncedUpdate(s.submits, t, pc);
        if s.submits[t] == Counted && IsAsleep(s.slots, wake) {
          assert SlotTable.SlotOk(c, s, wake);
          TallyUpdate(s.slots, wake, s'.slots[wake]);
        }
        forall j | 0 <= j < |s'.slots| ensures WakeOk(s', j) {
          assert WakeOk(s, j) && Locking.LockOk(s, j) && !(NoneAsleep(s.slots) && IsAsleep(s.slots, j));
        }
      }
    }
  }

  // ----- the manager and the controlling thread -----

  predicate Live(w: Slot) {
    !w.pc.Exited? && !w.pc.Absent?
  }

  /** After notify_all every live worker that is not told to exit is going to look at the queue,
      and in no other respect does any count of workers, tasks in hand or threads change. */
  lemma NotifyAllReaches(slots: seq<Slot>)
    ensures |WakeAll(slots)| == |slots|
    ensures forall i :: 0 <= i < |slots| ==>
              (Hit(Willing, WakeAll(slots)[i]) <==> Live(slots[i]) && !slots[i].exitFlag)
    ensures forall k :: k != Willing ==> Tally(WakeAll(slots), k) == Tally(slots, k)
  {
    forall k | k != Willing ensures Tally(WakeAll(slots), k) == Tally(slots, k) {
      TallyWakeAll(slots, WakeAll(slots), k);
    }
  }

  lemma ManagerAwake(c: Config, s: Pool, choice: bool)
    requires SlotTable.Table(c, s) && Locking.Locked(s) && Awake(s)
    ensures Awake(ManagerStep(c, s, choice))
  {
    var pc := NextManagerPc(c, s, choice);
    if pc != s.manager {
      var s' := ManagerMoves(s, pc, choice);
      if !s.manager.Retire? {
        forall j | 0 <= j < |s.slots| && Hit(Willing, s.slots[j]) ensures Hit(Willing, s'.slots[j]) {
          SlotTable.ManagerSameWork(c, s, choice, j);
        }
        TallyWithin(s.slots, s'.slots, Willing, Willing);
      }
      forall j | 0 <= j < |s'.slots| ensures WakeOk(s', j) {
        assert WakeOk(s, j);
        SlotTable.ManagerSameWork(c, s, choice, j);
      }
    }
  }

  lemma ControlAwake(c: Config, s: Pool, choice: bool)
    requires Shaped(c, s) && Lifecycle.Placed(s) && Locking.Locked(s) && Awake(s)
    ensures Awake(ControlStep(s, choice))
  {
    var s' := ControlStep(s, choice);
    forall j | 0 <= j < |s.slots| ensures ControlledSlot(s, s', j) {
      ControlSlots(c, s, choice, j);
    }
    TallyWithin(s.slots, s'.slots, Willing, Willing);
    forall j | 0 <= j < |s'.slots| ensures WakeOk(s', j) {
      assert WakeOk(s, j) && Locking.LockOk(s, j) && ControlledSlot(s, s', j);
    }
  }

  /** Nobody stays asleep when stopped_ is set, and nobody else is disturbed. */
  ghost predicate ControlledSlot(s: Pool, s': Pool, j: nat)
    requires j < |s.slots| == |s'.slots|
  {
    && (Hit(Willing, s.slots[j]) ==> Hit(Willing, s'.slots[j]))
    && (s'.slots[j].pc == Asleep || s'.slots[j].pc == SawEmpty ==>
          && s'.slots[j].pc == s.slots[j].pc
          && (s'.stopped ==> s.stopped || (s.lock == Free && s.slots[j].pc == SawEmpty)))
  }

  lemma ControlSlots(c: Config, s: Pool, choice: bool, j: nat)
    requires Shaped(c, s) && j < |s.slots|
    ensures |ControlStep(s, choice).slots| == |s.slots| && ControlledSlot(s, ControlStep(s, choice), j)
  {
  }

  lemma OtherAwake(s: Pool, s': Pool)
    requires Awake(s)
    requires s'.slots == s.slots && s'.q == s.q && s'.stopped == s.stopped
    requires Unannounced(s'.submits) == Unannounced(s.submits)
    requires s'.state == ForceShutting <==> s.state == ForceShutting
    ensures Awake(s')
  {
    forall j | 0 <= j < |s'.slots| ensures WakeOk(s', j) {
      assert WakeOk(s, j);
    }
  }
}
