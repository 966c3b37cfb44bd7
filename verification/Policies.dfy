/** What becomes of a submit call, in terms of the policy that stood when the call read it. */
module Policies {
  import opened Configs
  import BlockingQueues
  import opened Pools
  import opened Steps
  import opened Tallies
  import opened Runs
  import Origins
  import Accounting
  import Theorems

  // ----- setQueueFullPolicy and the reading of it -----

  /** The policy that was set last. */
  function LastSet(policy: QueueFullPolicy, actions: seq<Action>): QueueFullPolicy {
    if actions == [] then policy
    else
      var a := actions[|actions| - 1];
      if a.SetPolicy? then a.policy else LastSet(policy, actions[..|actions| - 1])
  }

  lemma StepPolicy(c: Config, s: Pool, a: Action)
    requires Shaped(c, s)
    ensures Next(c, s, a).policy == if a.SetPolicy? then a.policy else s.policy
  {
    match a
    case Work(i, choice) =>
    case Manage(choice) => assert ManagerStep(c, s, choice).policy == s.policy;
    case Control(choice) =>
    case _ =>
  }

  lemma {:induction false} PolicyIsLastSet(c: Config, actions: seq<Action>)
    requires ValidateConfigBasic(c).Accepted?
    ensures After(c, actions).policy == LastSet(c.policy, actions)
    decreases |actions|
  {
    if actions != [] {
      var n := |actions| - 1;
      PolicyIsLastSet(c, actions[..n]);
      AfterLast(c, actions);
      StepPolicy(c, After(c, actions[..n]), actions[n]);
    }
  }

  /** Submit calls are let in exactly in the running state. */
  lemma AdmittedIff(c: Config, actions: seq<Action>, a: Action, t: Task)
    requires ValidateConfigBasic(c).Accepted? && t !in After(c, actions).submits
    ensures t in After(c, actions + [a]).submits <==> a == BeginSubmit(t) && After(c, actions).state == Running
  {
    AfterStep(c, actions, a);
    StepAdmits(c, After(c, actions), a, t);
  }

  lemma StepAdmits(c: Config, s: Pool, a: Action, t: Task)
    requires Shaped(c, s) && t !in s.submits
    ensures t in Next(c, s, a).submits <==> a == BeginSubmit(t) && s.state == Running
  {
    match a
    case Work(i, choice) =>
    case Manage(choice) => assert ManagerStep(c, s, choice).submits == s.submits;
    case Control(choice) =>
    case _ =>
  }

  predicate HasChosen(s: Pool, t: Task, policy: QueueFullPolicy) {
    t in s.submits && s.submits[t] == Chosen(policy)
  }

  predicate ReadsPolicy(s: Pool, a: Action, t: Task) {
    a.ContinueSubmit? && a.t == t && t in s.submits && s.submits[t] == Checked
  }

  lemma StepChooses(c: Config, s: Pool, a: Action, t: Task, policy: QueueFullPolicy)
    requires Shaped(c, s)
    ensures HasChosen(Next(c, s, a), t, policy) && !HasChosen(s, t, policy) ==>
              ReadsPolicy(s, a, t) && s.policy == policy
  {
    match a
    case Work(i, choice) =>
    case Manage(choice) => assert ManagerStep(c, s, choice).submits == s.submits;
    case Control(choice) =>
    case _ =>
  }

  /** A call acts on the policy that was the last one set when the call read it, whatever was set
      since. */
  lemma ChosenWhenRead(c: Config, actions: seq<Action>, t: Task, policy: QueueFullPolicy) returns (n: nat)
    requires ValidateConfigBasic(c).Accepted? && HasChosen(After(c, actions), t, policy)
    ensures n < |actions| && ReadsPolicy(After(c, actions[..n]), actions[n], t)
    ensures LastSet(c.policy, actions[..n]) == policy
  {
    n := Origins.Entered(c, actions, s => HasChosen(s, t, policy));
    AfterPrefix(c, actions, n);
    StepChooses(c, After(c, actions[..n]), actions[n], t, policy);
    PolicyIsLastSet(c, actions[..n]);
  }

  // ----- a full queue -----

  /** A call meets a full queue and goes by the policy it has read. */
  predicate MeetsFull(s: Pool, a: Action, policy: QueueFullPolicy) {
    a.ContinueSubmit? && HasChosen(s, a.t, policy) && s.q.ring.Full()
  }

  predicate MeetsRoom(s: Pool, a: Action) {
    a.ContinueSubmit? && a.t in s.submits && s.submits[a.t].Chosen? && !s.q.ring.Full()
  }

  /** With room the task is accepted, whatever the policy. On a full queue a blocking call does not
      move; an overwriting one is accepted and drops the oldest task; a discarding one is over, with
      one discard counted and nothing else changed. */
  lemma FullQueue(c: Config, s: Pool, a: Action)
    requires Usable(c) && Shaped(c, s)
    ensures
      var s' := Next(c, s, a);
      && (MeetsRoom(s, a) ==>
            && s'.submits == s.submits[a.t := Pushed] && s'.q.pushed == s.q.pushed + [a.t]
            && s'.q.ring.items == s.q.ring.items + [a.t] && s'.q.removed == s.q.removed)
      && (MeetsFull(s, a, Blocking) ==> s' == s)
      && (MeetsFull(s, a, Overwrite) ==>
            && s'.submits == s.submits[a.t := Pushed] && s'.q.pushed == s.q.pushed + [a.t]
            && s'.q.ring.items == s.q.ring.items[1..] + [a.t]
            && s'.q.removed == s.q.removed + [BlockingQueues.Overwritten(s.q.ring.items[0])])
      && (MeetsFull(s, a, Discard) ==>
            s' == s.(submits := s.submits[a.t := Done], q := s.q.(discarded := s.q.discarded + 1)))
  {
  }

  // ----- how often -----

  ghost function Meetings(c: Config, actions: seq<Action>, policy: QueueFullPolicy): nat
    requires ValidateConfigBasic(c).Accepted?
    decreases |actions|
  {
    if actions == [] then 0
    else
      var n := |actions| - 1;
      Meetings(c, actions[..n], policy) + One(MeetsFull(After(c, actions[..n]), actions[n], policy))
  }

  lemma SubmitCounts(c: Config, s: Pool, t: Task, wake: nat)
    requires Usable(c) && Shaped(c, s)
    ensures
      var s' := SubmitStep(s, t, wake);
      var a := ContinueSubmit(t, wake);
      && s'.q.ring.overrun == s.q.ring.overrun + One(MeetsFull(s, a, Overwrite))
      && s'.q.discarded == s.q.discarded + One(MeetsFull(s, a, Discard))
  {
  }

  lemma OthersCountNothing(c: Config, s: Pool, a: Action)
    requires Shaped(c, s) && !a.ContinueSubmit?
    ensures
      var s' := Next(c, s, a);
      s'.q.ring.overrun == s.q.ring.overrun && s'.q.discarded == s.q.discarded
  {
    match a
    case Work(i, choice) =>
    case ContinueSubmit(t, wake) =>
    case Manage(choice) => assert ManagerStep(c, s, choice).q == s.q;
    case Control(choice) =>
    case _ => assert Next(c, s, a).q == s.q;
  }

  lemma StepCounts(c: Config, s: Pool, a: Action)
    requires Usable(c) && Shaped(c, s)
    ensures
      var s' := Next(c, s, a);
      && s'.q.ring.overrun == s.q.ring.overrun + One(MeetsFull(s, a, Overwrite))
      && s'.q.discarded == s.q.discarded + One(MeetsFull(s, a, Discard))
  {
    if a.ContinueSubmit? {
      SubmitCounts(c, s, a.t, a.wake);
    } else {
      OthersCountNothing(c, s, a);
    }
  }

  /** The overrun count is the number of calls that met a full queue having read OVERWRITE, the
      discard count the number of those that had read DISCARD. */
  lemma {:induction false} FullQueueCounted(c: Config, actions: seq<Action>)
    requires ValidateConfigBasic(c).Accepted?
    ensures After(c, actions).q.ring.overrun == Meetings(c, actions, Overwrite)
    ensures After(c, actions).q.discarded == Meetings(c, actions, Discard)
    decreases |actions|
  {
    if actions != [] {
      var n := |actions| - 1;
      FullQueueCounted(c, actions[..n]);
      AfterLast(c, actions);
      StepCounts(c, After(c, actions[..n]), actions[n]);
    }
  }

  /** The policy was the last one set after some part of the run. */
  ghost predicate Stood(c: Config, actions: seq<Action>, policy: QueueFullPolicy) {
    exists n :: 0 <= n <= |actions| && LastSet(c.policy, actions[..n]) == policy
  }

  lemma StoodBefore(c: Config, actions: seq<Action>, k: nat, policy: QueueFullPolicy)
    requires k <= |actions| && Stood(c, actions[..k], policy)
    ensures Stood(c, actions, policy)
  {
    var n :| 0 <= n <= k && LastSet(c.policy, actions[..k][..n]) == policy;
    assert actions[..k][..n] == actions[..n];
  }

  lemma ChosenStood(c: Config, actions: seq<Action>, t: Task, policy: QueueFullPolicy)
    requires ValidateConfigBasic(c).Accepted? && HasChosen(After(c, actions), t, policy)
    ensures Stood(c, actions, policy)
  {
    var n := ChosenWhenRead(c, actions, t, policy);
  }

  lemma {:induction false} NoMeetings(c: Config, actions: seq<Action>, policy: QueueFullPolicy)
    requires ValidateConfigBasic(c).Accepted?
    ensures Meetings(c, actions, policy) > 0 ==> Stood(c, actions, policy)
    decreases |actions|
  {
    if actions != [] {
      var n := |actions| - 1;
      NoMeetings(c, actions[..n], policy);
      if Meetings(c, actions[..n], policy) == 0 && MeetsFull(After(c, actions[..n]), actions[n], policy) {
        ChosenStood(c, actions[..n], actions[n].t, policy);
      }
      if Stood(c, actions[..n], policy) {
        StoodBefore(c, actions, n, policy);
      }
    }
  }

  /** Only a policy that stood at some time has effects: without OVERWRITE no accepted task is lost,
      without DISCARD none is refused, without BLOCKING no call that has read its policy waits. */
  lemma OnlyWhatStood(c: Config, actions: seq<Action>, t: Task, wake: nat)
    requires ValidateConfigBasic(c).Accepted?
    ensures
      var s := After(c, actions);
      && (!Stood(c, actions, Overwrite) ==> s.q.ring.overrun == 0 && BlockingQueues.Lost(s.q.removed) == [])
      && (!Stood(c, actions, Discard) ==> s.q.discarded == 0)
      && (!Stood(c, actions, Blocking) && t in s.submits && s.submits[t].Chosen? ==>
            NextSubmitPc(s, s.submits[t], wake) != s.submits[t])
  {
    AfterInv(c, actions);
    FullQueueCounted(c, actions);
    NoMeetings(c, actions, Overwrite);
    NoMeetings(c, actions, Discard);
    assert Accounting.Owned(After(c, actions));
    if HasChosen(After(c, actions), t, Blocking) {
      ChosenStood(c, actions, t, Blocking);
    }
  }

  // ----- refused or accepted -----

  /** The call is over and its task was not accepted. */
  predicate Refused(s: Pool, t: Task) {
    t in s.submits && s.submits[t] == Done && t !in s.q.pushed
  }

  /** A call that has pushed has its task among the accepted ones. */
  predicate PushedIn(s: Pool, t: Task) {
    t in s.submits && (s.submits[t] == Pushed || s.submits[t] == Counted) ==> t in s.q.pushed
  }

  lemma StepPushedIn(c: Config, s: Pool, a: Action, t: Task)
    requires Usable(c) && Shaped(c, s) && PushedIn(s, t)
    ensures PushedIn(Next(c, s, a), t)
  {
    match a
    case Work(i, choice) =>
    case Manage(choice) =>
      var s' := ManagerStep(c, s, choice);
      assert s'.submits == s.submits && s'.q == s.q;
    case Control(choice) =>
    case _ =>
  }

  lemma {:induction false} AfterPushedIn(c: Config, actions: seq<Action>, t: Task)
    requires ValidateConfigBasic(c).Accepted?
    ensures PushedIn(After(c, actions), t)
    decreases |actions|
  {
    if actions != [] {
      var n := |actions| - 1;
      AfterPushedIn(c, actions[..n], t);
      AfterLast(c, actions);
      StepPushedIn(c, After(c, actions[..n]), actions[n], t);
    }
  }

  predicate Refuses(s: Pool, a: Action, t: Task) {
    MeetsFull(s, a, Discard) && a.t == t
  }

  lemma SubmitRefuses(c: Config, s: Pool, u: Task, wake: nat, t: Task)
    requires Usable(c) && Shaped(c, s) && Accounting.Distinct(s) && PushedIn(s, t)
    ensures Refused(SubmitStep(s, u, wake), t) <==> Refused(s, t) || Refuses(s, ContinueSubmit(u, wake), t)
  {
  }

  lemma OthersRefuseNothing(c: Config, s: Pool, a: Action, t: Task)
    requires Shaped(c, s) && !a.ContinueSubmit?
    ensures Refused(Next(c, s, a), t) <==> Refused(s, t)
  {
    match a
    case Work(i, choice) =>
    case ContinueSubmit(u, wake) =>
    case Manage(choice) =>
      var s' := ManagerStep(c, s, choice);
      assert s'.submits == s.submits && s'.q == s.q;
    case Control(choice) =>
    case _ =>
  }

  lemma StepRefuses(c: Config, actions: seq<Action>, n: nat, t: Task)
    requires ValidateConfigBasic(c).Accepted? && n < |actions|
    ensures Refused(After(c, actions[..n + 1]), t)
            <==> Refused(After(c, actions[..n]), t) || Refuses(After(c, actions[..n]), actions[n], t)
  {
    var s, a := After(c, actions[..n]), actions[n];
    AfterInv(c, actions[..n]);
    AfterPushedIn(c, actions[..n], t);
    AfterPrefix(c, actions, n);
    if a.ContinueSubmit? {
      SubmitRefuses(c, s, a.t, a.wake, t);
    } else {
      OthersRefuseNothing(c, s, a, t);
    }
  }

  /** A call ends without its task being accepted if and only if it met a full queue having read
      DISCARD. Its task is then never accepted, executed or abandoned, however the run goes on. */
  lemma RefusedIff(c: Config, actions: seq<Action>, t: Task)
    requires ValidateConfigBasic(c).Accepted?
    ensures Refused(After(c, actions), t)
            <==> exists n :: 0 <= n < |actions| && Refuses(After(c, actions[..n]), actions[n], t)
  {
    if Refused(After(c, actions), t) {
      var n := Origins.Entered(c, actions, s => Refused(s, t));
      StepRefuses(c, actions, n, t);
    }
    if n :| 0 <= n < |actions| && Refuses(After(c, actions[..n]), actions[n], t) {
      StepRefuses(c, actions, n, t);
      StaysRefused(c, actions, n + 1, t);
    }
  }

  lemma StaysRefused(c: Config, actions: seq<Action>, n: nat, t: Task)
    requires ValidateConfigBasic(c).Accepted? && n <= |actions| && Refused(After(c, actions[..n]), t)
    ensures Refused(After(c, actions), t)
  {
    var p := s => Refused(s, t);
    forall m | n <= m < |actions| && p(After(c, actions[..m])) ensures p(After(c, actions[..m + 1])) {
      StepRefuses(c, actions, m, t);
    }
    Origins.Persists(c, actions, n, p);
  }

  /** So a call that is over was accepted or refused, and a refused task is in no place. */
  lemma RefusedIsNowhere(c: Config, actions: seq<Action>, t: Task)
    requires ValidateConfigBasic(c).Accepted? && Refused(After(c, actions), t)
    ensures Theorems.Places(After(c, actions), t) == 0
  {
    Theorems.ExactlyOnePlace(c, actions, t);
  }
}
