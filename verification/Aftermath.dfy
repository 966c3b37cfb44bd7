/** What becomes of submit calls that are still under way when stop returns. */
module Aftermath {
  import opened Configs
  import BlockingQueues
  import opened Pools
  import opened Steps
  import Invariants
  import opened Runs
  import Theorems

  /** A submit call that waits for room can go on exactly when there is some. Nothing else ends
      its wait; the state of the pool does not. */
  lemma BlockedSubmitIff(c: Config, s: Pool, t: Task, wake: nat)
    requires Usable(c) && Shaped(c, s) && t in s.submits && s.submits[t] == Chosen(Blocking)
    ensures SubmitStep(s, t, wake) != s <==> !s.q.ring.Full()
  {
    if !s.q.ring.Full() {
      assert SubmitStep(s, t, wake).submits[t] == Pushed;
    }
  }

  /** No task leaves the queue any more but by being overwritten. */
  ghost predicate OnlyPushes(s: Pool, s': Pool) {
    && s'.control == Returned
    && s'.past.executed == s.past.executed && s'.past.abandoned == s.past.abandoned
    && s.q.pushed <= s'.q.pushed
    && (s.q.ring.Full() ==> s'.q.ring.Full())
    && (s.q.ring.Full() ==> forall t <- s.submits :: s.submits[t] == Chosen(Blocking) ==>
          t in s'.submits && s'.submits[t] == Chosen(Blocking))
  }

  lemma SubmitOnlyPushes(c: Config, s: Pool, t: Task, wake: nat)
    requires Usable(c) && Shaped(c, s) && s.control == Returned
    ensures OnlyPushes(s, SubmitStep(s, t, wake))
  {
  }

  /** All threads of the pool are gone. */
  ghost predicate AllGone(s: Pool) {
    && s.control == Returned && s.manager == Idle && s.balancer == Gone
    && forall i :: 0 <= i < |s.slots| ==> s.slots[i].pc == Exited || s.slots[i].pc == Absent
  }

  lemma ReturnedAllGone(c: Config, s: Pool)
    requires Invariants.Inv(c, s) && s.control == Returned
    ensures Shaped(c, s) && AllGone(s)
  {
    Theorems.NobodyLeft(c, s);
  }

  lemma GoneStep(c: Config, s: Pool, a: Action)
    requires Usable(c) && Shaped(c, s) && AllGone(s)
    ensures OnlyPushes(s, Next(c, s, a))
  {
    match a
    case ContinueSubmit(t, wake) => SubmitOnlyPushes(c, s, t, wake);
    case Work(i, choice) =>
    case Manage(choice) =>
    case Control(choice) =>
    case _ => AsideOnlyPushes(c, s, a);
  }

  lemma AsideOnlyPushes(c: Config, s: Pool, a: Action)
    requires Shaped(c, s) && AllGone(s) && (Aside(a) || a.BeginSubmit?)
    ensures OnlyPushes(s, Next(c, s, a))
  {
  }

  lemma ReturnedStep(c: Config, s: Pool, a: Action)
    requires Invariants.Inv(c, s) && s.control == Returned
    ensures OnlyPushes(s, Next(c, s, a))
  {
    ReturnedAllGone(c, s);
    GoneStep(c, s, a);
  }

  lemma OnlyPushesChains(s: Pool, s': Pool, s'': Pool)
    requires OnlyPushes(s, s') && OnlyPushes(s', s'')
    ensures OnlyPushes(s, s'')
  {
  }

  lemma {:induction false} ReturnedForEver(c: Config, s: Pool, actions: seq<Action>)
    requires Invariants.Inv(c, s) && s.control == Returned
    ensures OnlyPushes(s, Execute(c, s, actions))
    decreases |actions|
  {
    if actions != [] {
      var next := ReturnedFirst(c, s, actions);
      ReturnedForEver(c, next, actions[1..]);
      OnlyPushesChains(s, next, Execute(c, next, actions[1..]));
    }
  }

  lemma ReturnedFirst(c: Config, s: Pool, actions: seq<Action>) returns (next: Pool)
    requires Invariants.Inv(c, s) && s.control == Returned && actions != []
    ensures Invariants.Inv(c, next) && next.control == Returned && OnlyPushes(s, next)
    ensures Execute(c, s, actions) == Execute(c, next, actions[1..])
  {
    next := Next(c, s, actions[0]);
    Invariants.NextInv(c, s, actions[0]);
    ReturnedStep(c, s, actions[0]);
  }

  lemma AfterReturn(c: Config, past: seq<Action>, future: seq<Action>)
    requires ValidateConfigBasic(c).Accepted? && After(c, past).control == Returned
    ensures OnlyPushes(After(c, past), After(c, past + future))
  {
    InitialInv(c);
    AfterInv(c, past);
    ExecuteAppend(c, Initial(c), past, future);
    ReturnedForEver(c, After(c, past), future);
  }

  /** A submit call that waits for room when stop has returned waits for ever. */
  lemma BlockedForEver(c: Config, past: seq<Action>, future: seq<Action>, t: Task)
    requires ValidateConfigBasic(c).Accepted? && After(c, past).control == Returned
    requires After(c, past).q.ring.Full() && t in After(c, past).submits
    requires After(c, past).submits[t] == Chosen(Blocking)
    ensures
      var s' := After(c, past + future);
      s'.q.ring.Full() && t in s'.submits && s'.submits[t] == Chosen(Blocking)
  {
    AfterReturn(c, past, future);
  }

  lemma NotSettled(c: Config, actions: seq<Action>, t: Task)
    requires ValidateConfigBasic(c).Accepted?
    ensures
      var s := After(c, actions);
      t in s.q.ring.items || t !in s.q.pushed ==> t !in s.past.executed && t !in s.past.abandoned
    ensures t in After(c, actions).q.ring.items ==> t in After(c, actions).q.pushed
  {
    Theorems.ExactlyOnePlace(c, actions, t);
  }

  lemma StillThere(c: Config, actions: seq<Action>, t: Task)
    requires ValidateConfigBasic(c).Accepted?
    ensures
      var s := After(c, actions);
      s.control == Returned && t in s.q.pushed && t !in s.past.executed && t !in s.past.abandoned ==>
        t in s.q.ring.items || t in BlockingQueues.Lost(s.q.removed)
  {
    AfterInv(c, actions);
    Theorems.ExactlyOnePlace(c, actions, t);
    var s := After(c, actions);
    if s.control == Returned {
      Theorems.NobodyLeft(c, s);
    }
  }

  /** A task that is queued when stop has returned, or pushed after that, is never executed and
      never abandoned: it stays in the queue unless it is overwritten there. */
  lemma StrandedForEver(c: Config, past: seq<Action>, future: seq<Action>, t: Task)
    requires ValidateConfigBasic(c).Accepted? && After(c, past).control == Returned
    requires t in After(c, past).q.ring.items
             || (t !in After(c, past).q.pushed && t in After(c, past + future).q.pushed)
    ensures
      var s' := After(c, past + future);
      && t !in s'.past.executed && t !in s'.past.abandoned
      && (t in s'.q.ring.items || t in BlockingQueues.Lost(s'.q.removed))
  {
    AfterReturn(c, past, future);
    NotSettled(c, past, t);
    StillThere(c, past + future, t);
  }
}
