/** No deadlock: wherever the repaired kernel has got to, its threads can bring every process to its
    end. */
module SchedulerProgress {
  import opened Builds
  import opened Queues
  import opened Scheduler
  import opened SchedulerRuns
  import opened SchedulerSafety

  /** Nothing is left to do for the burier; for those that are stopped; for the dispatcher. */
  predicate NoneDying(s: Kernel) {
    s.reaper.Empty? && s.exitSem == Sem(0, 0)
  }

  predicate NoneStopped(s: Kernel) {
    s.served == s.blocked == s.woken == s.waiting == []
  }

  predicate NoneReady(s: Kernel) {
    s.dispatcher.Empty? && s.readySem == Sem(0, 0)
  }

  predicate NoneEarly(s: Kernel) {
    s.planner.Empty? && s.createdSem == Sem(0, 0)
  }

  /** The next step towards that. */
  function NextStep(policy: Policy, s: Kernel): Event {
    if !NoneDying(s) then Burying(s) else if !NoneStopped(s) then Resuming(s)
    else if !NoneReady(s) then Running(policy, s) else Admitting(s)
  }

  function Burying(s: Kernel): Event {
    match s.reaper
    case Holds(_) => Bury
    case Empty => if s.exitSem.units > 0 then ReaperWait else PostExit
    case _ => ReaperPop
  }

  function Resuming(s: Kernel): Event {
    if s.served != [] then ReadyServed(s.served[0]) else if s.blocked != [] then Serve(s.blocked[0])
    else if s.woken != [] then ReadyWoken(s.woken[0]) else if s.waiting != [] then Wake(s.waiting[0]) else PostReady
  }

  function Running(policy: Policy, s: Kernel): Event {
    match s.dispatcher
    case Holds(_) => Finish
    case Empty => if s.readySem.units > 0 then DispatcherWait else PostReady
    case Called => if policy.VirtualRoundRobin? then Look else Pick
    case _ => Pick
  }

  function Admitting(s: Kernel): Event {
    match s.planner
    case Holds(_) => Admit
    case Admitted(_) => Load(true)
    case Empty => if s.createdSem.units > 0 then PlannerWait else PostCreated
    case _ => PlannerPop
  }

  /** How much is left to do: what a process needs where it is, and what a semaphore unit needs. */
  function Work(s: Kernel): nat {
    16 * |s.created| + 10 * (|s.ready| + |s.plus|) + 15 * (|s.blocked| + |s.waiting|) + 14 * (|s.served| + |s.woken|)
    + 4 * |s.exiting| + UnitWork(s.createdSem) + UnitWork(s.readySem) + UnitWork(s.exitSem)
    + HandWork(s.planner, 15) + HandWork(s.dispatcher, 9) + HandWork(s.reaper, 3)
  }

  function UnitWork(q: Sem): nat {
    3 * q.owed + 2 * q.units
  }

  function HandWork(h: Hand, held: nat): nat {
    match h
    case Holds(_) => held
    case Admitted(_) => 14
    case Called => 1
    case _ => 0
  }

  /** The step can be taken, starts nothing, crashes nothing, and leaves less to do. */
  predicate Helps(policy: Policy, s: Kernel, e: Event) {
    && Enabled(Repaired, policy, s, e) && !e.Create? && !e.Kill? && !e.Raise? && !e.Lower?
    && var s' := Step(Repaired, policy, s, e);
       !s'.crashed && Work(s') < Work(s) && s'.tally == s.tally
  }

  lemma {:induction false} PostsHelp(policy: Policy, s: Kernel)
    requires !s.crashed
    ensures s.exitSem.owed > 0 ==> Helps(policy, s, PostExit)
    ensures s.readySem.owed > 0 ==> Helps(policy, s, PostReady)
    ensures s.createdSem.owed > 0 ==> Helps(policy, s, PostCreated)
  {
    hide Killed, Returned, Picked, Slaughtered, ToReady, TakenOut;
  }

  lemma {:induction false} WaitsHelp(policy: Policy, s: Kernel)
    requires !s.crashed
    ensures s.reaper.Empty? && s.exitSem.units > 0 ==> Helps(policy, s, ReaperWait)
    ensures s.dispatcher.Empty? && s.readySem.units > 0 ==> Helps(policy, s, DispatcherWait)
    ensures s.planner.Empty? && s.createdSem.units > 0 ==> Helps(policy, s, PlannerWait)
  {
    hide Killed, Returned, Picked, Slaughtered, ToReady, TakenOut;
  }

  lemma {:induction false} BuryingHelps(policy: Policy, s: Kernel)
    requires Counted(policy, s) && !s.crashed && !NoneDying(s)
    ensures Helps(policy, s, Burying(s))
  {
    if s.reaper.Empty? {
      hide Helps;
      PostsHelp(policy, s);
      WaitsHelp(policy, s);
    } else {
      BurierHelps(policy, s);
    }
  }

  lemma {:induction false} BurierHelps(policy: Policy, s: Kernel)
    requires !s.crashed
    ensures s.reaper.Called? && s.exiting != [] ==> Helps(policy, s, ReaperPop)
    ensures s.reaper.Holds? ==> Helps(policy, s, Bury)
  {
    hide Killed, Returned, Picked, Slaughtered, ToReady, TakenOut;
  }

  lemma {:induction false} ResumingHelps(policy: Policy, s: Kernel)
    requires !s.crashed && !NoneStopped(s)
    ensures Helps(policy, s, Resuming(s))
  {
    hide Killed, Returned, Picked, Slaughtered, TakenOut;
  }

  lemma {:induction false} DispatcherHelps(policy: Policy, s: Kernel)
    requires !s.crashed
    ensures s.dispatcher.Called? && policy.VirtualRoundRobin? ==> Helps(policy, s, Look)
    ensures s.dispatcher.Holds? && s.dispatcher.pid in s.labels && !s.labels[s.dispatcher.pid].New? ==>
            Helps(policy, s, Finish)
  {
  }

  lemma {:induction false} PickHelps(policy: Policy, s: Kernel)
    requires !s.crashed && Enabled(Repaired, policy, s, Pick)
    requires if s.dispatcher == Looked(true) then s.plus != [] else s.ready != []
    ensures Helps(policy, s, Pick)
  {
  }

  lemma {:induction false} RunningHelps(policy: Policy, s: Kernel)
    requires Counted(policy, s) && s.tally.readySurplus == 0 && !s.crashed && !NoneReady(s)
    requires s.dispatcher.Holds? ==> s.dispatcher.pid in s.labels && !s.labels[s.dispatcher.pid].New?
    ensures Helps(policy, s, Running(policy, s))
  {
    hide Helps;
    match s.dispatcher
    case Empty =>
      PostsHelp(policy, s);
      WaitsHelp(policy, s);
    case Holds(_) => DispatcherHelps(policy, s);
    case Called =>
      if policy.VirtualRoundRobin? {
        DispatcherHelps(policy, s);
      } else {
        PickHelps(policy, s);
      }
    case _ => PickHelps(policy, s);
  }

  lemma {:induction false} PlannerHelps(policy: Policy, s: Kernel)
    requires !s.crashed
    ensures s.planner.Called? && s.created != [] ==> Helps(policy, s, PlannerPop)
    ensures s.planner.Holds? && s.slots > 0 ==> Helps(policy, s, Admit)
    ensures s.planner.Admitted? ==> Helps(policy, s, Load(true))
  {
    hide Killed, Returned, Picked, TakenOut, ToReady, Slaughtered;
  }

  lemma {:induction false} AdmittingHelps(policy: Policy, s: Kernel)
    requires Counted(policy, s) && s.tally.createdSurplus == s.tally.readySurplus == s.tally.leaked == 0 && !s.crashed
    requires NoneStopped(s) && NoneReady(s) && !NoneEarly(s) && s.tally.degree > 0
    ensures Helps(policy, s, Admitting(s))
  {
    hide Helps;
    if s.planner.Empty? {
      PostsHelp(policy, s);
      WaitsHelp(policy, s);
    } else {
      PlannerHelps(policy, s);
    }
  }

  /** The label of the process that runs. */
  lemma {:induction false} RunnerIsLabelled(policy: Policy, s: Kernel)
    requires Inv(Repaired, policy, s) && s.dispatcher.Holds?
    ensures s.dispatcher.pid in s.labels && s.labels[s.dispatcher.pid].Running?
  {
    assert Placed(Repaired, s, s.dispatcher.pid);
    hide Times, Counted;
  }

  lemma {:induction false} NextStepHelps(policy: Policy, s: Kernel)
    requires Inv(Repaired, policy, s) && !s.crashed && s.tally.degree > 0
    requires !(NoneDying(s) && NoneStopped(s) && NoneReady(s) && NoneEarly(s))
    ensures Helps(policy, s, NextStep(policy, s))
  {
    hide Helps, NoneDying, NoneStopped, NoneReady, NoneEarly, Burying, Resuming, Running, Admitting, Placed, Counted;
    if !NoneDying(s) {
      BuryingHelps(policy, s);
    } else if !NoneStopped(s) {
      ResumingHelps(policy, s);
    } else if !NoneReady(s) {
      if s.dispatcher.Holds? {
        RunnerIsLabelled(policy, s);
      }
      RunningHelps(policy, s);
    } else {
      AdmittingHelps(policy, s);
    }
  }

  lemma {:induction false} NobodyIsLeft(policy: Policy, s: Kernel, p: nat)
    requires Inv(Repaired, policy, s) && NoneDying(s) && NoneStopped(s) && NoneReady(s) && NoneEarly(s)
    ensures p !in s.alive && s.created == s.ready == s.plus == s.exiting == [] && s.slots == s.tally.degree
  {
    assert Placed(Repaired, s, p);
  }

  lemma {:induction false} WorkIsDone(policy: Policy, s: Kernel) returns (run: seq<Event>)
    requires Inv(Repaired, policy, s) && !s.crashed && s.tally.degree > 0
    ensures Possible(Repaired, policy, s, run) && forall e :: e in run ==>
            !e.Create? && !e.Kill? && !e.Raise? && !e.Lower?
    ensures var t := After(Repaired, policy, s, run);
            && t.alive == {} && t.slots == s.tally.degree && !t.crashed
            && t.created == t.ready == t.plus == t.blocked == t.waiting == t.served == t.woken == t.exiting == []
    decreases Work(s)
  {
    hide Inv, Enabled, Step, NoneDying, NoneStopped, NoneReady, NoneEarly, NextStep, Work;
    run := [];
    if NoneDying(s) && NoneStopped(s) && NoneReady(s) && NoneEarly(s) {
      forall p: nat ensures p !in s.alive {
        NobodyIsLeft(policy, s, p);
      }
      NobodyIsLeft(policy, s, 0);
      Stopped(s);
    } else {
      var e := NextStep(policy, s);
      NextStepHelps(policy, s);
      StepKeepsInv(Repaired, policy, s, e);
      var rest := WorkIsDone(policy, Step(Repaired, policy, s, e));
      run := [e] + rest;
      assert run[1..] == rest;
    }
  }

  lemma {:induction false} Stopped(s: Kernel)
    requires NoneStopped(s)
    ensures s.blocked == s.waiting == s.served == s.woken == []
  {
  }

  /** From wherever a run of the repaired kernel has led, as long as the degree of multiprogramming
      lets one process in, the threads alone can bring all processes to their end and leave every
      queue empty and every slot free: nothing waits for a post that nobody makes. */
  lemma {:induction false} NoDeadlock(policy: Policy, degree: nat, run: seq<Event>) returns (more: seq<Event>)
    requires Possible(Repaired, policy, Start(degree), run) && degree + Raised(run) > 0
    ensures Possible(Repaired, policy, After(Repaired, policy, Start(degree), run), more)
    ensures forall e :: e in more ==> !e.Create? && !e.Kill? && !e.Raise? && !e.Lower?
    ensures var t := After(Repaired, policy, After(Repaired, policy, Start(degree), run), more);
            && t.alive == {} && t.slots == degree + Raised(run) && !t.crashed
            && t.created == t.ready == t.plus == t.blocked == t.waiting == t.served == t.woken == t.exiting == []
  {
    hide Inv, After, Possible, Raised;
    StartInv(Repaired, policy, degree);
    RunsKeepInv(Repaired, policy, Start(degree), run);
    RunsAreSafe(policy, degree, run, 0);
    DegreeFollows(Repaired, policy, Start(degree), run);
    more := WorkIsDone(policy, After(Repaired, policy, Start(degree), run));
  }
}
