/** Counting workers by what they are doing. */
module Tallies {
  import opened Pools

  datatype Kind =
    | CountedRunning   // between running_tasks_++ and running_tasks_--
    | CountedActive    // between active_threads_++ and active_threads_--
    | Owing            // has taken a task and not yet subtracted it from pending_tasks_
    | Unreported(ok: bool)   // has executed a task and not yet counted this outcome
    | Willing          // awake and not told to exit: will look at the queue before it sleeps
    | HasThread        // the thread object is joinable
    | Holding(t: Task) // has dequeued this task and not yet executed it

  predicate Hit(k: Kind, w: Slot) {
    match k
    case CountedRunning =>
      w.pc.Executing? || w.pc.Reporting? || w.pc.Relocking? || w.pc.Uncount? || w.pc.Unrun?
    case CountedActive =>
      w.pc.Activated? || w.pc.Stamped? || w.pc.Executing? || w.pc.Reporting? || w.pc.Relocking?
      || w.pc.Uncount? || w.pc.Unrun? || w.pc.Unactive?
    case Owing =>
      w.pc.Got? || w.pc.Activated? || w.pc.Stamped? || w.pc.Executing? || w.pc.Reporting?
      || w.pc.Relocking? || w.pc.Uncount?
    case Unreported(ok) => w.pc == Reporting(ok)
    case Willing => !w.pc.Asleep? && !w.pc.Exited? && !w.pc.Absent? && !w.exitFlag
    case HasThread => w.joinable
    case Holding(t) => w.pc == Got(t) || w.pc == Activated(t) || w.pc == Stamped(t) || w.pc == Executing(t)
  }

  function One(b: bool): nat {
    if b then 1 else 0
  }

  function CountTo(slots: seq<Slot>, k: Kind, n: nat): (m: nat)
    requires n <= |slots|
    ensures m <= n
  {
    if n == 0 then 0 else CountTo(slots, k, n - 1) + One(Hit(k, slots[n - 1]))
  }

  function Tally(slots: seq<Slot>, k: Kind): (n: nat)
    ensures n <= |slots|
  {
    CountTo(slots, k, |slots|)
  }

  lemma {:induction false} CountUpdate(slots: seq<Slot>, i: nat, w: Slot, k: Kind, n: nat)
    requires i < |slots| && n <= |slots|
    ensures CountTo(slots[i := w], k, n)
            == CountTo(slots, k, n) + (if i < n then One(Hit(k, w)) - One(Hit(k, slots[i])) else 0)
  {
    if n > 0 {
      CountUpdate(slots, i, w, k, n - 1);
    }
  }

  lemma TallyUpdate(slots: seq<Slot>, i: nat, w: Slot)
    requires i < |slots|
    ensures forall k :: Tally(slots[i := w], k) == Tally(slots, k) - One(Hit(k, slots[i])) + One(Hit(k, w))
  {
    forall k ensures Tally(slots[i := w], k) == Tally(slots, k) - One(Hit(k, slots[i])) + One(Hit(k, w)) {
      CountUpdate(slots, i, w, k, |slots|);
    }
  }

  lemma {:induction false} CountWithin(slots: seq<Slot>, slots': seq<Slot>, k: Kind, k': Kind, n: nat)
    requires n <= |slots| && n <= |slots'|
    requires forall i :: 0 <= i < n && Hit(k, slots[i]) ==> Hit(k', slots'[i])
    ensures CountTo(slots, k, n) <= CountTo(slots', k', n)
  {
    if n > 0 {
      CountWithin(slots, slots', k, k', n - 1);
      assert Hit(k, slots[n - 1]) ==> Hit(k', slots'[n - 1]);
    }
  }

  /** Two kinds that pick out the same workers count the same number. */
  lemma TallySame(slots: seq<Slot>, slots': seq<Slot>, k: Kind, k': Kind)
    requires |slots| == |slots'|
    requires forall i :: 0 <= i < |slots| ==> Hit(k, slots[i]) == Hit(k', slots'[i])
    ensures Tally(slots, k) == Tally(slots', k')
  {
    CountWithin(slots, slots', k, k', |slots|);
    forall i | 0 <= i < |slots| && Hit(k', slots'[i]) ensures Hit(k, slots[i]) {
      assert Hit(k, slots[i]) == Hit(k', slots'[i]);
    }
    CountWithin(slots', slots, k', k, |slots|);
  }

  /** Waking sleepers changes no count but that of the willing. */
  lemma TallyWakeAll(slots: seq<Slot>, woken: seq<Slot>, k: Kind)
    requires |woken| == |slots| && k != Willing
    requires forall i :: 0 <= i < |slots| ==>
               woken[i] == slots[i] || (slots[i].pc == Asleep && woken[i] == slots[i].(pc := WantLock))
    ensures Tally(woken, k) == Tally(slots, k)
  {
    TallySame(woken, slots, k, k);
  }

  lemma {:induction false} CountFull(slots: seq<Slot>, k: Kind, n: nat)
    requires n <= |slots| && forall i :: 0 <= i < n ==> Hit(k, slots[i])
    ensures CountTo(slots, k, n) == n
  {
    if n > 0 {
      CountFull(slots, k, n - 1);
      assert Hit(k, slots[n - 1]);
    }
  }

  lemma {:induction false} CountNone(slots: seq<Slot>, k: Kind, n: nat)
    requires n <= |slots| && forall i :: 0 <= i < n ==> !Hit(k, slots[i])
    ensures CountTo(slots, k, n) == 0
  {
    if n > 0 {
      CountNone(slots, k, n - 1);
      assert !Hit(k, slots[n - 1]);
    }
  }

  lemma {:induction false} CountGrows(slots: seq<Slot>, k: Kind, m: nat, n: nat)
    requires m <= n <= |slots|
    ensures CountTo(slots, k, m) <= CountTo(slots, k, n)
  {
    if m < n {
      CountGrows(slots, k, m, n - 1);
    }
  }

  lemma {:induction false} CountTail(slots: seq<Slot>, k: Kind, m: nat, n: nat)
    requires m <= n <= |slots| && forall i :: m <= i < n ==> !Hit(k, slots[i])
    ensures CountTo(slots, k, n) == CountTo(slots, k, m)
  {
    if m < n {
      CountTail(slots, k, m, n - 1);
      assert !Hit(k, slots[n - 1]);
    }
  }

  lemma TallyFull(slots: seq<Slot>, k: Kind)
    requires forall i :: 0 <= i < |slots| ==> Hit(k, slots[i])
    ensures Tally(slots, k) == |slots|
  {
    CountFull(slots, k, |slots|);
  }

  lemma TallyNone(slots: seq<Slot>, k: Kind)
    requires forall i :: 0 <= i < |slots| ==> !Hit(k, slots[i])
    ensures Tally(slots, k) == 0
  {
    CountNone(slots, k, |slots|);
  }

  lemma TallyWithin(slots: seq<Slot>, slots': seq<Slot>, k: Kind, k': Kind)
    requires |slots| == |slots'|
    requires forall i :: 0 <= i < |slots| && Hit(k, slots[i]) ==> Hit(k', slots'[i])
    ensures Tally(slots, k) <= Tally(slots', k')
  {
    CountWithin(slots, slots', k, k', |slots|);
  }

  lemma TallyPrefix(slots: seq<Slot>, k: Kind, n: nat)
    requires n <= |slots| && forall i :: 0 <= i < n ==> Hit(k, slots[i])
    ensures n <= Tally(slots, k)
  {
    CountFull(slots, k, n);
    CountGrows(slots, k, n, |slots|);
  }
}
