/** What single steps come to, written out: the form in which code makes them. */
module StepForms {
  import opened Configs
  import opened Pools
  import opened Steps

  function Released(s: Pool, pc: ManagerPc): BalancerPc {
    if pc.Idle? && s.balancer.InLoadCheck? then WantClean
    else if pc.Idle? && s.balancer.InClean? then Looping
    else s.balancer
  }

  lemma ManagerGoes(c: Config, s: Pool, choice: bool)
    requires Shaped(c, s)
    requires s.manager.ReadActive? || s.manager.ReadPending? || s.manager.Create? || s.manager.TestIdle?
    ensures
      var pc := NextManagerPc(c, s, choice);
      ManagerStep(c, s, choice) == s.(manager := pc, balancer := Released(s, pc))
  {
  }

  lemma ManagerSets(c: Config, s: Pool, choice: bool)
    requires Shaped(c, s) && (s.manager.ResetIdle? || s.manager.ClearFlag?) && s.manager.i < |s.slots|
    ensures
      var i := s.manager.i;
      ManagerStep(c, s, choice)
      == if s.manager.ResetIdle? then s.(slots := s.slots[i := s.slots[i].(idle := 0)], manager := ClearFlag(i))
         else s.(slots := s.slots[i := s.slots[i].(exitFlag := false)], manager := CountThread)
  {
  }

  lemma JoinOldStep(c: Config, s: Pool, choice: bool)
    requires Shaped(c, s) && s.manager.JoinOld? && s.manager.i < |s.slots|
    ensures
      var i := s.manager.i;
      ManagerStep(c, s, choice)
      == if s.slots[i].pc != Exited then s
         else s.(slots := s.slots[i := s.slots[i].(joinable := false)], threadCount := s.threadCount - 1,
                 destroyed := s.destroyed + 1, manager := Respawn(i))
  {
  }

  lemma StartStep(c: Config, s: Pool, starts: bool)
    requires Shaped(c, s) && (s.manager.Respawn? || s.manager.Emplace?)
    requires Target(s) < |s.slots| && !s.slots[Target(s)].joinable
    ensures
      var i := Target(s);
      ManagerStep(c, s, starts)
      == if !starts then s.(manager := Idle, balancer := Released(s, Idle))
         else s.(slots := s.slots[i := s.slots[i].(pc := Top, joinable := true)],
                 size := if s.manager.Emplace? then s.size + 1 else s.size,
                 manager := if s.manager.Emplace? then CountThread else ResetIdle(i))
  {
    assert s.slots[Target(s) := s.slots[Target(s)]] == s.slots;
  }

  lemma CountStep(c: Config, s: Pool, choice: bool)
    requires Shaped(c, s) && (s.manager.CountThread? || s.manager.RecordThread?)
    ensures ManagerStep(c, s, choice)
            == if s.manager.CountThread?
               then s.(threadCount := s.threadCount + 1, manager := RecordThread,
                       past := s.past.(maxThreads := Larger(s.past.maxThreads, s.threadCount + 1)))
               else s.(created := s.created + 1, peak := Larger(s.peak, s.threadCount), manager := Idle,
                       balancer := Released(s, Idle))
  {
  }

  lemma RetireStep(c: Config, s: Pool, choice: bool)
    requires Shaped(c, s) && s.manager.Retire? && s.manager.i < |s.slots|
    ensures
      var i := s.manager.i;
      ManagerStep(c, s, choice)
      == if s.lock != Free then s
         else s.(slots := WakeAll(s.slots[i := s.slots[i].(exitFlag := true)]), manager := Idle,
                 balancer := Released(s, Idle))
  {
    var i := s.manager.i;
    if s.lock == Free {
      assert ManagedSlot(s, s.slots[i], Idle, choice) == s.slots[i].(exitFlag := true);
    }
  }

  lemma ControlGoes(s: Pool, choice: bool)
    requires s.q.Valid() && s.size <= |s.slots|
    requires s.control.WantWait? || s.control.EvalWait? || s.control.AsleepWait? || s.control.PollRunning?
             || s.control.PollPending? || s.control.JoinBalancer? || s.control.Drain?
    ensures
      var pc := NextControlPc(s, choice);
      ControlStep(s, choice)
      == if pc == s.control then s
         else s.(control := pc, lock := if ControlHolds(pc) then Controller
                                        else if ControlHolds(s.control) then Free else s.lock)
  {
  }

  lemma DrainStep(s: Pool, choice: bool)
    requires s.q.Valid() && s.size <= |s.slots| && s.lock == Controller
    requires s.control.DrainDequeue? || s.control.DrainGot? || s.control.DrainUncount? || s.control.DrainFail?
    ensures ControlStep(s, choice)
            == match s.control
               case DrainDequeue =>
                 if s.q.ring.items == [] then s
                 else s.(q := s.q.Dequeue(), control := DrainGot(s.q.ring.items[0]))
               case DrainGot(t) => s.(control := DrainUncount, past := s.past.(abandoned := s.past.abandoned + [t]))
               case DrainUncount => s.(control := DrainFail, pending := s.pending - 1)
               case _ => s.(control := Drain, failed := s.failed + 1)
  {
  }

  lemma ForceStep(s: Pool, choice: bool)
    requires s.q.Valid() && s.size <= |s.slots| && (s.control.Forcing? || s.control.WantDrain?)
    ensures ControlStep(s, choice)
            == if s.control.WantDrain? then
                 if s.lock != Free then s
                 else s.(control := Drain, lock := Controller, past := s.past.(atDrain := s.q.ring.items))
               else if s.state == ForceShutting || s.state == Stopped then s.(control := Returned)
               else s.(control := WantDrain, state := ForceShutting, past := s.past.(forced := true))
  {
  }

  lemma StopStep(s: Pool, choice: bool)
    requires s.q.Valid() && s.size <= |s.slots|
    requires s.control.StopBalancer? || s.control.StopWorkers? || s.control.Join? || s.control.Finish?
    ensures ControlStep(s, choice)
            == match s.control
               case StopBalancer =>
                 s.(control := StopWorkers, balancerExit := true, balancer := WakeBalancer(s.balancer))
               case StopWorkers =>
                 if s.lock != Free then s
                 else s.(control := JoinBalancer, stopped := true, slots := WakeAll(s.slots))
               case Join(i) =>
                 if i >= s.size then s.(control := Finish)
                 else if s.slots[i].joinable && s.slots[i].pc != Exited then s
                 else s.(control := Join(i + 1), slots := s.slots[i := s.slots[i].(joinable := false)])
               case _ => s.(control := Returned, state := Stopped)
  {
  }

  lemma ScanStep(c: Config, s: Pool, idle: bool)
    requires Shaped(c, s) && s.manager.Scan?
    ensures
      var i := s.manager.i;
      ManagerStep(c, s, idle)
      == if i >= s.size then s.(manager := Idle, balancer := if s.balancer.InLoadCheck? then WantClean
                                                            else if s.balancer.InClean? then Looping
                                                            else s.balancer)
         else if s.slots[i].exitFlag then s.(manager := Scan(i + 1))
         else s.(slots := s.slots[i := s.slots[i].(idle := s.slots[i].idle + if idle then 1 else 0)],
                 manager := TestIdle(i))
  {
    assert s.manager.i < |s.slots| ==> s.slots[s.manager.i := s.slots[s.manager.i]] == s.slots;
  }

  lemma CleanPasses(c: Config, s: Pool, choice: bool)
    requires Shaped(c, s) && s.manager.Clean? && (s.manager.i < s.size ==> !MustJoin(s, s.manager.i))
    ensures ManagerStep(c, s, choice)
            == if s.manager.i < s.size then s.(manager := Clean(s.manager.i + 1))
               else s.(manager := Idle, balancer := if s.balancer.InLoadCheck? then WantClean
                                                    else if s.balancer.InClean? then Looping
                                                    else s.balancer)
  {
    assert s.manager.i < |s.slots| ==> s.slots[s.manager.i := s.slots[s.manager.i]] == s.slots;
  }

  lemma CleanJoins(c: Config, s: Pool, choice: bool)
    requires Shaped(c, s) && s.manager.Clean? && s.manager.i < s.size && MustJoin(s, s.manager.i)
    ensures
      var i := s.manager.i;
      ManagerStep(c, s, choice)
      == if !HasExited(s, i) then s
         else s.(slots := s.slots[i := s.slots[i].(joinable := false)], threadCount := s.threadCount - 1,
                 destroyed := s.destroyed + 1, manager := Clean(i + 1))
  {
  }

  function NextSlots(s: Pool, i: nat, choice: bool): seq<Slot>
    requires i < |s.slots|
  {
    s.slots[i := s.slots[i].(pc := NextWorkerPc(s, s.slots[i], choice))]
  }

  function NextLock(s: Pool, i: nat, choice: bool): Owner
    requires i < |s.slots|
  {
    var pc := NextWorkerPc(s, s.slots[i], choice);
    if Holds(pc) then Worker(i) else if Holds(s.slots[i].pc) then Free else s.lock
  }

  lemma WorkerOnlyMoves(s: Pool, s': Pool, i: nat, choice: bool)
    requires s.q.Valid() && i < |s.slots|
    requires
      var pc := s.slots[i].pc;
      pc.Top? || pc.PauseCheck? || pc.PauseSpin? || pc.PauseOver? || pc.WantLock? || pc.Looking?
      || pc.SawEmpty? || pc.Asleep? || pc.Checking? || pc.Taking? || pc.Relocking?
    requires s' == s.(slots := NextSlots(s, i, choice), lock := NextLock(s, i, choice))
    requires NextWorkerPc(s, s.slots[i], choice) == s.slots[i].pc ==> s'.lock == s.lock
    ensures s' == WorkerStep(s, i, choice)
  {
    assert s.slots[i := s.slots[i]] == s.slots;
  }

  lemma WorkerDequeues(s: Pool, s': Pool, i: nat, choice: bool)
    requires s.q.Valid() && i < |s.slots| && s.slots[i].pc == Dequeuing && s.lock == Worker(i)
    requires
      if s.q.ring.items == [] then s' == s
      else s' == s.(slots := s.slots[i := s.slots[i].(pc := Got(s.q.ring.items[0]))],
                    q := s.q.Dequeue(),
                    past := s.past.(lateStarts := s.past.lateStarts + if s.state == ForceShutting then 1 else 0))
    ensures s' == WorkerStep(s, i, choice)
  {
  }

  lemma WorkerStarts(s: Pool, s': Pool, i: nat, choice: bool)
    requires s.q.Valid() && i < |s.slots| && s.lock == Worker(i)
    requires s.slots[i].pc.Got? || s.slots[i].pc.Activated? || s.slots[i].pc.Stamped?
    requires s' == s.(slots := s'.slots, lock := NextLock(s, i, choice),
                      active := s.active + (if s.slots[i].pc.Got? then 1 else 0),
                      running := s.running + (if s.slots[i].pc.Stamped? then 1 else 0))
    requires
      var slots := NextSlots(s, i, choice);
      s'.slots == slots[i := slots[i].(idle := if s.slots[i].pc.Activated? then 0 else s.slots[i].idle)]
    ensures s' == WorkerStep(s, i, choice)
  {
  }

  lemma WorkerReports(s: Pool, s': Pool, i: nat, choice: bool)
    requires s.q.Valid() && i < |s.slots| && (s.slots[i].pc.Executing? || s.slots[i].pc.Reporting?)
    requires
      var pc := s.slots[i].pc;
      s' == s.(slots := NextSlots(s, i, choice),
               succeeded := s.succeeded + (if pc.Reporting? && pc.ok then 1 else 0),
               failed := s.failed + (if pc.Reporting? && !pc.ok then 1 else 0),
               past := if pc.Executing?
                       then s.past.(executed := s.past.executed + [pc.t],
                                    failures := s.past.failures + if choice then 0 else 1)
                       else s.past)
    ensures s' == WorkerStep(s, i, choice)
  {
  }

  lemma WorkerFinishes(s: Pool, s': Pool, i: nat, choice: bool)
    requires s.q.Valid() && i < |s.slots| && s.lock == Worker(i)
    requires s.slots[i].pc.Uncount? || s.slots[i].pc.Unrun? || s.slots[i].pc.Unactive? || s.slots[i].pc.Announce?
    requires
      var pc := s.slots[i].pc;
      s' == s.(slots := NextSlots(s, i, choice), lock := NextLock(s, i, choice),
               pending := s.pending - (if pc.Uncount? then 1 else 0),
               running := s.running - (if pc.Unrun? then 1 else 0),
               active := s.active - (if pc.Unactive? then 1 else 0),
               control := if pc.Announce? && s.control == AsleepWait then WantWait else s.control)
    ensures s' == WorkerStep(s, i, choice)
  {
  }
}
