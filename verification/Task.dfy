/** Tasks with a future: the promise, and why the pool never sets it twice. */
module Tasks {
  import opened Configs
  import opened Pools
  import opened Steps
  import Accounting
  import opened Runs
  import Theorems

  datatype Promise<R> = Unset | Value(value: R) | Error(reason: string)

  /** What the wrapped callable does when it is invoked. */
  datatype Call<R> = Returns(value: R) | Throws(reason: string)

  const ABANDONED := "Task abandoned"

  class FutureTask<R(==)> {
    const func: Call<R>
    var promise: Promise<R>
    var taskSuccess: bool

    constructor (func: Call<R>)
      ensures this.func == func && promise == Unset && !taskSuccess
    {
      this.func := func;
      promise := Unset;
      taskSuccess := false;
    }

    /** The promise refuses to be set again: that is the exception `thrown` stands for. */
    method Set(p: Promise<R>) returns (thrown: bool)
      requires p != Unset
      modifies this`promise
      ensures thrown <==> old(promise) != Unset
      ensures promise == if thrown then old(promise) else p
    {
      thrown := promise != Unset;
      if !thrown {
        promise := p;
      }
    }

    /** A refused value ends in the handler, which is refused as well. */
    method Execute() returns (thrown: bool)
      modifies this
      ensures thrown <==> old(promise) != Unset
      ensures promise == Settle(old(promise), func, Executed)
      ensures taskSuccess == if thrown then old(taskSuccess) else func.Returns?
    {
      var caught := if func.Throws? then func.reason else "Promise already satisfied";
      var refused := func.Throws?;
      if func.Returns? {
        refused := Set(Value(func.value));
      }
      thrown := false;
      if refused {
        thrown := Set(Error(caught));
      }
      if !thrown {
        taskSuccess := !refused;
      }
    }

    method Abandon() returns (thrown: bool)
      modifies this
      ensures thrown <==> old(promise) != Unset
      ensures promise == Settle(old(promise), func, Abandoned)
      ensures taskSuccess == (thrown && old(taskSuccess))
    {
      thrown := Set(Error(ABANDONED));
      if !thrown {
        taskSuccess := false;
      }
    }
  }

  datatype Settlement = Executed | Abandoned

  /** The first settlement decides; later ones change nothing. */
  function Settle<R>(p: Promise<R>, func: Call<R>, how: Settlement): (p': Promise<R>)
    ensures p' != Unset && (p != Unset ==> p' == p)
    ensures p == Unset && how == Executed && func.Returns? ==> p' == Value(func.value)
    ensures p == Unset && how == Executed && func.Throws? ==> p' == Error(func.reason)
  {
    if p != Unset then p
    else if how == Abandoned then Error(ABANDONED)
    else if func.Returns? then Value(func.value)
    else Error(func.reason)
  }

  // ----- settlements in a run of the pool -----

  function StepSettles(s: Pool, a: Action, t: Task): seq<Settlement> {
    if a.Work? && a.i < |s.slots| && s.slots[a.i].pc == Executing(t) then [Executed]
    else if a.Control? && s.control == DrainGot(t) then [Abandoned]
    else []
  }

  /** The calls of execute and abandon on task t, in the order of the run. */
  ghost function Settlements(c: Config, actions: seq<Action>, t: Task): seq<Settlement>
    requires ValidateConfigBasic(c).Accepted?
    decreases |actions|
  {
    if actions == [] then []
    else
      var n := |actions| - 1;
      Settlements(c, actions[..n], t) + StepSettles(After(c, actions[..n]), actions[n], t)
  }

  function TimesSettled(past: History, t: Task): nat {
    Accounting.Times(past.executed, t) + Accounting.Times(past.abandoned, t)
  }

  lemma WorkSettles(s: Pool, i: nat, choice: bool, t: Task)
    requires s.q.Valid() && i < |s.slots|
    ensures TimesSettled(WorkerStep(s, i, choice).past, t)
            == TimesSettled(s.past, t) + |StepSettles(s, Work(i, choice), t)|
  {
    if s.slots[i].pc.Executing? {
      Accounting.TimesSnoc(s.past.executed, s.slots[i].pc.t, t);
    }
  }

  lemma ControlSettles(s: Pool, choice: bool, t: Task)
    requires s.q.Valid() && s.size <= |s.slots|
    ensures TimesSettled(ControlStep(s, choice).past, t)
            == TimesSettled(s.past, t) + |StepSettles(s, Control(choice), t)|
  {
    if s.control.DrainGot? {
      Accounting.TimesSnoc(s.past.abandoned, s.control.t, t);
    }
  }

  lemma OthersSettleNothing(c: Config, s: Pool, a: Action)
    requires Shaped(c, s) && !a.Work? && !a.Control?
    ensures Next(c, s, a).past.executed == s.past.executed && Next(c, s, a).past.abandoned == s.past.abandoned
  {
  }

  lemma {:induction false} SettlementsCounted(c: Config, actions: seq<Action>, t: Task)
    requires ValidateConfigBasic(c).Accepted?
    ensures |Settlements(c, actions, t)| == TimesSettled(After(c, actions).past, t)
    decreases |actions|
  {
    if actions != [] {
      var n := |actions| - 1;
      SettlementsCounted(c, actions[..n], t);
      LastCounted(c, actions, t);
    }
  }

  lemma LastCounted(c: Config, actions: seq<Action>, t: Task)
    requires ValidateConfigBasic(c).Accepted? && actions != []
    ensures
      var n := |actions| - 1;
      TimesSettled(After(c, actions).past, t)
      == TimesSettled(After(c, actions[..n]).past, t) + |StepSettles(After(c, actions[..n]), actions[n], t)|
  {
    AfterLast(c, actions);
    StepCounted(c, After(c, actions[..|actions| - 1]), actions[|actions| - 1], t);
  }

  lemma StepCounted(c: Config, s: Pool, a: Action, t: Task)
    requires Shaped(c, s)
    ensures TimesSettled(Next(c, s, a).past, t) == TimesSettled(s.past, t) + |StepSettles(s, a, t)|
  {
    match a
    case Work(i, choice) => if i < |s.slots| { WorkSettles(s, i, choice, t); }
    case Control(choice) => ControlSettles(s, choice, t);
    case _ => OthersSettleNothing(c, s, a);
  }

  function SettleAll<R>(p: Promise<R>, func: Call<R>, hows: seq<Settlement>): Promise<R> {
    if hows == [] then p else Settle(SettleAll(p, func, hows[..|hows| - 1]), func, hows[|hows| - 1])
  }

  /** Over any run a task is executed once, or abandoned once, or neither, so no promise is
      ever set twice; and the promise of a task is set exactly if the task was executed or
      abandoned. */
  lemma PromiseSetOnce<R>(c: Config, actions: seq<Action>, t: Task, func: Call<R>)
    requires ValidateConfigBasic(c).Accepted?
    ensures
      var past := After(c, actions).past;
      var p := SettleAll(Unset, func, Settlements(c, actions, t));
      && |Settlements(c, actions, t)| <= 1
      && (t in past.executed ==> t !in past.abandoned && p == Settle(Unset, func, Executed))
      && (t in past.abandoned ==> t !in past.executed && p == Error(ABANDONED))
      && (t !in past.executed && t !in past.abandoned ==> p == Unset)
  {
    Theorems.ExactlyOnePlace(c, actions, t);
    SettlementsCounted(c, actions, t);
    SettledHow(c, actions, t);
  }

  lemma {:induction false} SettledHow(c: Config, actions: seq<Action>, t: Task)
    requires ValidateConfigBasic(c).Accepted?
    ensures Executed in Settlements(c, actions, t) <==> t in After(c, actions).past.executed
    ensures Abandoned in Settlements(c, actions, t) <==> t in After(c, actions).past.abandoned
    decreases |actions|
  {
    if actions != [] {
      var n := |actions| - 1;
      SettledHow(c, actions[..n], t);
      AfterLast(c, actions);
      StepSettlesHow(c, After(c, actions[..n]), actions[n], t);
    }
  }

  lemma StepSettlesHow(c: Config, s: Pool, a: Action, t: Task)
    requires Shaped(c, s)
    ensures t in Next(c, s, a).past.executed <==> t in s.past.executed || Executed in StepSettles(s, a, t)
    ensures t in Next(c, s, a).past.abandoned <==> t in s.past.abandoned || Abandoned in StepSettles(s, a, t)
  {
    if !a.Work? && !a.Control? {
      OthersSettleNothing(c, s, a);
    }
  }
}
